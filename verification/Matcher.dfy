/**
  Host to service matching: two hash maps and a walk over the host's parent domains,
  against a linear scan of the listed patterns.
 */
module Matcher {
  import opened Core
  import opened Text

  datatype Pattern = Exact(host: string) | Suffix(parent: string)

  datatype Service = Service(name: string, patterns: seq<Pattern>)

  // --------------------------------------------------------- the Host header

  /** `trim_end_matches('.')`. */
  function TrimDots(s: string): (t: string)
    ensures t <= s && (t != "" ==> t[|t| - 1] != '.')
  {
    if s != "" && s[|s| - 1] == '.' then TrimDots(s[..|s| - 1]) else s
  }

  /** The last position of `c`, or `|s|`. */
  function FindLast(s: string, c: char): (k: nat)
    ensures k <= |s|
    ensures k < |s| ==> s[k] == c && forall j :: k < j < |s| ==> s[j] != c
    ensures k == |s| ==> c !in s
  {
    if s == "" then 0
    else
      var n := |s| - 1;
      if s[n] == c then n
      else
        var k := FindLast(s[..n], c);
        if k == n then |s| else k
  }

  function WithoutPort(host: string): string {
    if host != "" && host[0] == '[' then
      var rest := host[1..];
      rest[..Find(rest, ']', 0)]
    else
      var k := FindLast(host, ':');
      if k < |host| && AllDigits(host[k + 1..]) then host[..k] else host
  }

  /** `normalise_host`: no port, no trailing dots, lower case. */
  function NormaliseHost(host: string): string {
    Lower(TrimDots(WithoutPort(Trim(host))))
  }

  /** Upper case, any number of trailing dots and a port make no difference to a host name. */
  lemma SpellingsAgree(name: string, dots: string, port: string)
    requires name != "" && Trimmed(name) && ':' !in name && name[0] != '[' && name[|name| - 1] != '.'
    requires forall i :: 0 <= i < |dots| ==> dots[i] == '.'
    requires AllDigits(port)
    ensures NormaliseHost(name + dots + ":" + port) == Lower(name)
    ensures NormaliseHost(name + dots) == Lower(name)
  {
    var bare := name + dots;
    PortIsStripped(bare, port);
    NoPort(bare);
    DotsTrimmed(name, dots);
    TrimmedIsFixed(bare);
    PortIsTrimmed(bare, port);
  }

  lemma TrimmedHost(host: string)
    requires Trimmed(host)
    ensures NormaliseHost(host) == Lower(TrimDots(WithoutPort(host)))
  {
    TrimmedIsFixed(host);
  }

  lemma WithinBrackets(inner: string, rest: string)
    requires ']' !in inner
    ensures WithoutPort("[" + inner + "]" + rest) == inner && WithoutPort("[" + inner) == inner
  {
    var closed, open := "[" + inner + "]" + rest, "[" + inner;
    assert open[1..] == inner;
    var after := closed[1..];
    assert after == inner + "]" + rest;
    assert forall j :: 0 <= j < |inner| ==> after[j] == inner[j];
    assert after[|inner|] == ']';
    assert after[..|inner|] == inner;
  }

  /** A bracketed address is what the brackets hold, whatever follows them; a missing bracket is made up for. */
  lemma BracketsAreStripped(inner: string, rest: string)
    requires ']' !in inner
    requires Trimmed("[" + inner + "]" + rest) && Trimmed("[" + inner)
    ensures NormaliseHost("[" + inner + "]" + rest) == Lower(TrimDots(inner))
    ensures NormaliseHost("[" + inner) == Lower(TrimDots(inner))
  {
    TrimmedHost("[" + inner + "]" + rest);
    TrimmedHost("[" + inner);
    WithinBrackets(inner, rest);
  }

  lemma NotAPort(before: string, after: string)
    requires before != "" && before[0] != '[' && ':' !in after && !AllDigits(after)
    ensures WithoutPort(before + ":" + after) == before + ":" + after
  {
    var full := before + ":" + after;
    assert full[|before|] == ':' && full[|before| + 1..] == after;
    assert forall j :: |before| < j < |full| ==> full[j] == after[j - |before| - 1];
    assert FindLast(full, ':') == |before|;
  }

  /** What follows the last colon is a port only if it is all digits. */
  lemma OtherSuffixesAreKept(before: string, after: string)
    requires before != "" && before[0] != '[' && ':' !in after && !AllDigits(after)
    requires Trimmed(before + ":" + after)
    ensures NormaliseHost(before + ":" + after) == Lower(TrimDots(before + ":" + after))
  {
    TrimmedHost(before + ":" + after);
    NotAPort(before, after);
  }

  lemma PortIsTrimmed(bare: string, port: string)
    requires bare != "" && !IsWhitespace(bare[0]) && AllDigits(port)
    ensures Trim(bare + ":" + port) == bare + ":" + port
  {
    var full := bare + ":" + port;
    assert full[|full| - 1] == ':' || IsDigit(full[|full| - 1]);
    TrimmedIsFixed(full);
  }

  lemma PortIsStripped(bare: string, port: string)
    requires bare != "" && bare[0] != '[' && AllDigits(port)
    ensures WithoutPort(bare + ":" + port) == bare
  {
    var full := bare + ":" + port;
    assert full[|bare|] == ':' && full[|bare| + 1..] == port;
    assert forall j :: |bare| < j < |full| ==> full[j] == port[j - |bare| - 1];
    assert FindLast(full, ':') == |bare|;
    assert full[..|bare|] == bare;
  }

  lemma NoPort(bare: string)
    requires bare != "" && bare[0] != '[' && ':' !in bare
    ensures WithoutPort(bare) == bare
  {
  }

  lemma {:induction false} DotsTrimmed(name: string, dots: string)
    requires name != "" && name[|name| - 1] != '.'
    requires forall i :: 0 <= i < |dots| ==> dots[i] == '.'
    ensures TrimDots(name + dots) == name
    decreases |dots|
  {
    if dots != "" {
      assert (name + dots)[..|name + dots| - 1] == name + dots[..|dots| - 1];
      DotsTrimmed(name, dots[..|dots| - 1]);
    } else {
      assert name + dots == name;
    }
  }

  // ------------------------------------------------------- the linear scan

  type Entries = seq<(nat, Pattern)>

  /** The patterns of a service, each with the service's position in the list. */
  function Tagged(index: nat, patterns: seq<Pattern>): Entries {
    if patterns == [] then [] else Tagged(index, patterns[..|patterns| - 1]) + [(index, patterns[|patterns| - 1])]
  }

  /** Every listed pattern in order. */
  function Listed(services: seq<Service>): Entries {
    if services == [] then []
    else
      var n := |services| - 1;
      Listed(services[..n]) + Tagged(n, services[n].patterns)
  }

  /** `host` is some label or labels, a dot, and `parent`. */
  predicate Under(host: string, parent: string) {
    |host| > |parent| && host[|host| - |parent| - 1] == '.' && host[|host| - |parent|..] == parent
  }

  lemma UnderMeans(host: string, parent: string)
    ensures Under(host, parent) <==> exists x: string :: host == x + "." + parent
    ensures !Under(parent, parent)
  {
    if Under(host, parent) {
      assert host == host[..|host| - |parent| - 1] + "." + parent;
    }
    if x: string :| host == x + "." + parent {
      assert host[|x|] == '.';
    }
  }

  /** The last entry that names the host itself. */
  function ScanExact(entries: Entries, host: string): Option<nat> {
    if entries == [] then None
    else
      var (index, pattern) := entries[|entries| - 1];
      if pattern == Exact(host) then Some(index) else ScanExact(entries[..|entries| - 1], host)
  }

  /** One pass that keeps the longest parent seen, a later entry winning a tie. */
  function ScanSuffix(entries: Entries, host: string): Option<(nat, string)> {
    if entries == [] then None
    else
      var (index, pattern) := entries[|entries| - 1];
      var best := ScanSuffix(entries[..|entries| - 1], host);
      if pattern.Suffix? && Under(host, pattern.parent) && (best.None? || |best.value.1| <= |pattern.parent|) then
        Some((index, pattern.parent))
      else best
  }

  /** What a linear scan of the list answers for a normalised host. */
  function Scan(services: seq<Service>, host: string): (found: Option<nat>) {
    var entries := Listed(services);
    if host == "" then None
    else if ScanExact(entries, host).Some? then ScanExact(entries, host)
    else if ScanSuffix(entries, host).Some? then Some(ScanSuffix(entries, host).value.0)
    else None
  }

  // ------------------------------------------------------------- the maps

  function ExactMap(entries: Entries): map<string, nat> {
    if entries == [] then map[]
    else
      var (index, pattern) := entries[|entries| - 1];
      var before := ExactMap(entries[..|entries| - 1]);
      if pattern.Exact? then before[pattern.host := index] else before
  }

  function SuffixMap(entries: Entries): map<string, nat> {
    if entries == [] then map[]
    else
      var (index, pattern) := entries[|entries| - 1];
      var before := SuffixMap(entries[..|entries| - 1]);
      if pattern.Suffix? then before[pattern.parent := index] else before
  }

  function Names(services: seq<Service>): (names: seq<string>)
    ensures |names| == |services|
    ensures forall i :: 0 <= i < |services| ==> names[i] == services[i].name
  {
    if services == [] then [] else Names(services[..|services| - 1]) + [services[|services| - 1].name]
  }

  lemma {:induction false} ExactMapIsScan(entries: Entries, host: string)
    ensures host in ExactMap(entries) <==> ScanExact(entries, host).Some?
    ensures host in ExactMap(entries) ==> ExactMap(entries)[host] == ScanExact(entries, host).value
  {
    if entries != [] { ExactMapIsScan(entries[..|entries| - 1], host); }
  }

  /** The parent is a key that covers the host, and no key that covers it is longer. */
  predicate Longest(keys: set<string>, host: string, parent: string) {
    && parent in keys && Under(host, parent)
    && forall q :: q in keys && Under(host, q) ==> |q| <= |parent|
  }

  lemma LongestIsUnique(keys: set<string>, host: string, p: string, q: string)
    requires Longest(keys, host, p) && Longest(keys, host, q)
    ensures p == q
  {
  }

  lemma {:induction false} ScanFindsLongest(entries: Entries, host: string)
    ensures ScanSuffix(entries, host).Some? ==>
              var (index, parent) := ScanSuffix(entries, host).value;
              Longest(SuffixMap(entries).Keys, host, parent) && SuffixMap(entries)[parent] == index
    ensures ScanSuffix(entries, host).None? ==> forall q :: q in SuffixMap(entries) ==> !Under(host, q)
  {
    if entries != [] {
      ScanFindsLongest(entries[..|entries| - 1], host);
      assert forall p, q :: Under(host, p) && Under(host, q) && |p| == |q| ==> p == q;
    }
  }

  /** Service numbers that the maps hold are positions in the list. */
  lemma {:induction false} ListedInRange(services: seq<Service>)
    ensures forall k :: 0 <= k < |Listed(services)| ==> Listed(services)[k].0 < |services|
  {
    if services != [] {
      ListedInRange(services[..|services| - 1]);
      TaggedInRange(|services| - 1, services[|services| - 1].patterns);
    }
  }

  lemma {:induction false} TaggedInRange(index: nat, patterns: seq<Pattern>)
    ensures forall k :: 0 <= k < |Tagged(index, patterns)| ==> Tagged(index, patterns)[k].0 == index
  {
    if patterns != [] { TaggedInRange(index, patterns[..|patterns| - 1]); }
  }

  lemma {:induction false} MapsInRange(entries: Entries, n: nat)
    requires forall k :: 0 <= k < |entries| ==> entries[k].0 < n
    ensures forall h :: h in ExactMap(entries) ==> ExactMap(entries)[h] < n
    ensures forall p :: p in SuffixMap(entries) ==> SuffixMap(entries)[p] < n
  {
    if entries != [] { MapsInRange(entries[..|entries| - 1], n); }
  }

  // ---------------------------------------------------------- the matcher

  datatype Compiled = Compiled(exact: map<string, nat>, suffix: map<string, nat>, names: seq<string>)

  /** The matcher holds what the list says. */
  predicate Represents(m: Compiled, services: seq<Service>) {
    && m.exact == ExactMap(Listed(services))
    && m.suffix == SuffixMap(Listed(services))
    && m.names == Names(services)
  }

  /** `build`: two maps filled in nested loops over services and their patterns. */
  method Build(services: seq<Service>) returns (m: Compiled)
    ensures Represents(m, services)
  {
    var exact: map<string, nat>, suffix: map<string, nat>, names: seq<string> := map[], map[], [];
    var index := 0;
    while index < |services|
      invariant 0 <= index <= |services|
      invariant Represents(Compiled(exact, suffix, names), services[..index])
    {
      names := names + [services[index].name];
      exact, suffix := AddPatterns(exact, suffix, index, services[index].patterns, Listed(services[..index]));
      NextService(services, index);
      index := index + 1;
    }
    assert services[..index] == services;
    return Compiled(exact, suffix, names);
  }

  /** The inner loop: the patterns of one service go into the map of their kind. */
  method AddPatterns(exact0: map<string, nat>, suffix0: map<string, nat>, index: nat, patterns: seq<Pattern>,
                     ghost before: Entries) returns (exact: map<string, nat>, suffix: map<string, nat>)
    requires exact0 == ExactMap(before) && suffix0 == SuffixMap(before)
    ensures exact == ExactMap(before + Tagged(index, patterns))
    ensures suffix == SuffixMap(before + Tagged(index, patterns))
  {
    exact, suffix := exact0, suffix0;
    var at := 0;
    assert before + Tagged(index, patterns[..0]) == before;
    while at < |patterns|
      invariant 0 <= at <= |patterns|
      invariant exact == ExactMap(before + Tagged(index, patterns[..at]))
      invariant suffix == SuffixMap(before + Tagged(index, patterns[..at]))
    {
      OneMore(before, index, patterns, at);
      match patterns[at] {
        case Exact(host) => exact := exact[host := index];
        case Suffix(parent) => suffix := suffix[parent := index];
      }
      at := at + 1;
    }
    assert patterns[..at] == patterns;
  }

  lemma NextService(services: seq<Service>, index: nat)
    requires index < |services|
    ensures var patterns := services[index].patterns;
            && Listed(services[..index + 1]) == Listed(services[..index]) + Tagged(index, patterns)
            && Names(services[..index + 1]) == Names(services[..index]) + [services[index].name]
  {
    assert services[..index + 1][..index] == services[..index];
  }

  lemma OneMore(before: Entries, index: nat, patterns: seq<Pattern>, at: nat)
    requires at < |patterns|
    ensures var entries := before + Tagged(index, patterns[..at]);
            var more := before + Tagged(index, patterns[..at + 1]);
            match patterns[at]
            case Exact(host) =>
              ExactMap(more) == ExactMap(entries)[host := index] && SuffixMap(more) == SuffixMap(entries)
            case Suffix(parent) =>
              ExactMap(more) == ExactMap(entries) && SuffixMap(more) == SuffixMap(entries)[parent := index]
  {
    var entries := before + Tagged(index, patterns[..at]);
    var more := before + Tagged(index, patterns[..at + 1]);
    assert patterns[..at + 1][..at] == patterns[..at];
    assert more[..|more| - 1] == entries && more[|more| - 1] == (index, patterns[at]);
  }

  lemma CompiledInRange(m: Compiled, services: seq<Service>)
    requires Represents(m, services)
    ensures forall h :: h in m.exact ==> m.exact[h] < |m.names|
    ensures forall p :: p in m.suffix ==> m.suffix[p] < |m.names|
  {
    ListedInRange(services);
    MapsInRange(Listed(services), |services|);
  }

  /**
    `service_for` answers what the linear scan of the list answers for the normalised
    host: an exact pattern first, else the longest wildcard parent the host lies under,
    the last listing of either winning.
   */
  method ServiceFor(m: Compiled, host: string, ghost services: seq<Service>) returns (found: Option<string>)
    requires Represents(m, services)
    ensures found == match Scan(services, NormaliseHost(host))
                     case None => None
                     case Some(index) => if index < |services| then Some(services[index].name) else None
  {
    var name := NormaliseHost(host);
    CompiledInRange(m, services);
    ExactMapIsScan(Listed(services), name);
    if name == "" {
      return None;
    }
    if name in m.exact {
      return Some(m.names[m.exact[name]]);
    }
    NoTrailingDot(host);
    var parent := WalkParents(m.suffix, name);
    WalkIsScan(Listed(services), name, parent);
    if parent.None? {
      return None;
    }
    return Some(m.names[m.suffix[parent.value]]);
  }

  lemma WalkIsScan(entries: Entries, name: string, parent: Option<string>)
    requires parent.Some? ==> Longest(SuffixMap(entries).Keys, name, parent.value)
    requires parent.None? ==> forall q :: q in SuffixMap(entries) ==> !Under(name, q)
    ensures ScanSuffix(entries, name) ==
            match parent
            case None => None
            case Some(p) => Some((SuffixMap(entries)[p], p))
  {
    ScanFindsLongest(entries, name);
    if parent.Some? && ScanSuffix(entries, name).Some? {
      LongestIsUnique(SuffixMap(entries).Keys, name, parent.value, ScanSuffix(entries, name).value.1);
    }
  }

  /** The walk over parent domains, longest first. */
  method WalkParents(suffix: map<string, nat>, name: string) returns (found: Option<string>)
    requires name != "" && name[|name| - 1] != '.'
    ensures found.Some? ==> Longest(suffix.Keys, name, found.value)
    ensures found.None? ==> forall q :: q in suffix ==> !Under(name, q)
  {
    var rest := name;
    while true
      invariant rest != "" && rest[|rest| - 1] != '.'
      invariant forall q :: Under(rest, q) ==> Under(name, q)
      invariant forall q :: q in suffix && Under(name, q) ==> Under(rest, q)
      decreases |rest|
    {
      var dot := Find(rest, '.', 0);
      FirstParent(rest, dot);
      if dot == |rest| {
        return None;
      }
      var parent := rest[dot + 1..];
      if parent == "" {
        return None;
      }
      if parent in suffix {
        return Some(parent);
      }
      rest := parent;
    }
  }

  lemma NoTrailingDot(host: string)
    ensures var name := NormaliseHost(host); name != "" ==> name[|name| - 1] != '.'
  {
  }

  /** What a name lies under: the part after its first dot, and whatever that lies under. */
  lemma FirstParent(name: string, dot: nat)
    requires dot == Find(name, '.', 0)
    ensures dot == |name| ==> forall q :: !Under(name, q)
    ensures dot < |name| ==> forall q :: Under(name, q) <==> q == name[dot + 1..] || Under(name[dot + 1..], q)
  {
    if dot < |name| {
      forall q ensures Under(name, q) <==> q == name[dot + 1..] || Under(name[dot + 1..], q) {
        UnderFirstDot(name, dot, q);
      }
    }
  }

  lemma UnderFirstDot(name: string, dot: nat, q: string)
    requires dot < |name| && name[dot] == '.' && forall j :: 0 <= j < dot ==> name[j] != '.'
    ensures Under(name, q) <==> q == name[dot + 1..] || Under(name[dot + 1..], q)
  {
    var parent := name[dot + 1..];
    if |q| < |parent| {
      assert parent[|parent| - |q|..] == name[|name| - |q|..];
    }
  }
}
