/**
 Which advice reaches which agent: label groups, the server's matcher
 (internal/model/advice.go), the command line's matcher and the advice a claim
 adds (cmd/kd/advice_diff.go).
 */
module Advice {
  import opened Wrappers
  import opened Strings

  // ---------------------------------------------------------------- labels

  predicate IsDigit(c: char) {
    '0' <= c <= '9'
  }

  /** A group prefix ends at i: `g`, at least one digit, a colon. */
  predicate PrefixEnds(l: string, i: int) {
    1 < i < |l| && l[0] == 'g' && l[i] == ':' && forall k :: 1 <= k < i ==> '0' <= l[k] <= '9'
  }

  /** StripGroupPrefix. */
  method StripGroupPrefix(l: string) returns (r: string)
    ensures r == Strip(l)
    ensures forall i :: PrefixEnds(l, i) ==> r == l[i + 1..]
    ensures (forall i :: !PrefixEnds(l, i)) ==> r == l
  {
    StripMeans(l);
    if |l| >= 3 && l[0] == 'g' {
      var i := 1;
      while i < |l|
        invariant 1 <= i <= |l|
        invariant forall k :: 1 <= k < i ==> IsDigit(l[k])
      {
        if l[i] == ':' && i > 1 {
          StripAt(l, i);
          return l[i + 1..];
        }
        if l[i] < '0' || l[i] > '9' {
          break;
        }
        i := i + 1;
      }
    }
    return l;
  }

  /** The label is `g<digits>:` and a rest. */
  predicate Grouped(l: string) {
    var i := IndexOf(l, ':');
    1 < i < |l| && l[0] == 'g' && forall k :: 1 <= k < i ==> IsDigit(l[k])
  }

  function Strip(l: string): string {
    if Grouped(l) then l[IndexOf(l, ':') + 1..] else l
  }

  lemma StripAt(l: string, i: nat)
    requires 1 < i < |l| && l[0] == 'g' && l[i] == ':'
    requires forall k :: 1 <= k < i ==> IsDigit(l[k])
    ensures IndexOf(l, ':') == i
  {}

  lemma StripMeans(l: string)
    ensures forall i :: PrefixEnds(l, i) ==> Strip(l) == l[i + 1..]
    ensures (forall i :: !PrefixEnds(l, i)) ==> Strip(l) == l
  {
    forall i | PrefixEnds(l, i) ensures Strip(l) == l[i + 1..] {
      StripAt(l, i);
    }
    if Grouped(l) {
      assert PrefixEnds(l, IndexOf(l, ':'));
    }
  }

  function Value(digits: string): nat
    requires forall k :: 0 <= k < |digits| ==> IsDigit(digits[k])
  {
    if digits == [] then 0
    else
      assert IsDigit(digits[|digits| - 1]);
      Value(digits[..|digits| - 1]) * 10 + (digits[|digits| - 1] as int - '0' as int)
  }

  function DigitRun(s: string): (n: nat)
    ensures n <= |s|
    ensures forall k :: 0 <= k < n ==> IsDigit(s[k])
    ensures n < |s| ==> !IsDigit(s[n])
  {
    if s == [] || !IsDigit(s[0]) then 0 else 1 + DigitRun(s[1..])
  }

  /** The scanner's leading space; it gives up at the end of a line. */
  function SkipSpace(s: string): Option<string> {
    if s != [] && s[0] == '\n' then None
    else if s != [] && IsSpace(s[0]) then SkipSpace(s[1..])
    else Some(s)
  }

  const MIN_INT := -0x8000_0000_0000_0000
  const MAX_INT := 0x7FFF_FFFF_FFFF_FFFF

  /**
   fmt.Sscanf(s, "g%d", &n): leading space is skipped, a sign is allowed, whatever
   follows the digits is left unread, and a number that is no int is an error.
   */
  function ScanGroup(s: string): Option<int> {
    if s == [] || s[0] != 'g' || SkipSpace(s[1..]).None? then None
    else
      var t := SkipSpace(s[1..]).value;
      var neg := t != [] && t[0] == '-';
      var u := if t != [] && (t[0] == '-' || t[0] == '+') then t[1..] else t;
      var n := DigitRun(u);
      var v: int := if n == 0 then 0 else if neg then 0 - Value(u[..n]) else Value(u[..n]);
      if n == 0 || v < MIN_INT || v > MAX_INT then None else Some(v)
  }

  /** A label with its group, if it has one: the number and the label inside. */
  function GroupOf(l: string): Option<(int, string)> {
    var i := IndexOf(l, ':');
    if i < |l| && i > 1 && ScanGroup(l[..i]).Some? then Some((ScanGroup(l[..i]).value, l[i + 1..])) else None
  }

  /** Only a label that starts with `g` and holds a colon can have a group. */
  lemma NoGroup(l: string)
    requires l == "" || l[0] != 'g' || ':' !in l
    ensures GroupOf(l).None?
  {}

  predicate Digits(s: string) {
    s != "" && forall c :: c in s ==> '0' <= c <= '9'
  }

  /**
   The forms that have a group: a sign may stand before the digits, white space
   before that, and anything that is no digit after them, up to the first colon.
   */
  lemma GroupForms(space: string, sign: string, digits: string, tail: string, rest: string)
    requires AllSpace(space) && '\n' !in space && sign in ["", "+", "-"] && Digits(digits)
    requires tail == "" || !('0' <= tail[0] <= '9')
    requires ':' !in tail
    requires forall k :: 0 <= k < |digits| ==> IsDigit(digits[k])
    ensures var v: int := if sign == "-" then 0 - Value(digits) else Value(digits);
            GroupOf("g" + (space + (sign + (digits + tail))) + ":" + rest) ==
            if -0x8000_0000_0000_0000 <= v <= 0x7FFF_FFFF_FFFF_FFFF then Some((v, rest)) else None
  {
    var head := "g" + (space + (sign + (digits + tail)));
    NoColon(space, sign, digits, tail);
    FirstColon(head, rest);
    assert digits[0] in digits && head[0] == 'g';
    ScanForms(space, sign, digits, tail);
  }

  lemma NoColon(space: string, sign: string, digits: string, tail: string)
    requires AllSpace(space) && sign in ["", "+", "-"] && Digits(digits) && ':' !in tail
    ensures ':' !in "g" + (space + (sign + (digits + tail)))
  {
    assert ':' !in space && ':' !in sign && ':' !in digits;
  }

  lemma ScanForms(space: string, sign: string, digits: string, tail: string)
    requires AllSpace(space) && '\n' !in space && sign in ["", "+", "-"] && Digits(digits)
    requires tail == "" || !('0' <= tail[0] <= '9')
    requires forall k :: 0 <= k < |digits| ==> IsDigit(digits[k])
    ensures var v: int := if sign == "-" then 0 - Value(digits) else Value(digits);
            ScanGroup("g" + (space + (sign + (digits + tail)))) ==
            if -0x8000_0000_0000_0000 <= v <= 0x7FFF_FFFF_FFFF_FFFF then Some(v) else None
  {
    var u, t := digits + tail, sign + (digits + tail);
    var head := "g" + (space + t);
    SignRead(sign, digits, tail);
    StartsVisible(t);
    assert head[1..] == space + t;
    SpaceSkipped(space, t);
    RunAt(u, |digits|);
    assert u[..|digits|] == digits;
    ScanFrom(head, t, u, digits);
  }

  lemma StartsVisible(t: string)
    requires t != "" && (t[0] == '-' || t[0] == '+' || '0' <= t[0] <= '9')
    ensures !IsSpace(t[0])
  {}

  lemma ScanFrom(s: string, t: string, u: string, digits: string)
    requires s != "" && s[0] == 'g' && SkipSpace(s[1..]) == Some(t) && t != ""
    requires u == if t[0] == '-' || t[0] == '+' then t[1..] else t
    requires digits != "" && DigitRun(u) == |digits| && u[..|digits|] == digits
    requires forall k :: 0 <= k < |digits| ==> IsDigit(digits[k])
    ensures var v: int := if t[0] == '-' then 0 - Value(digits) else Value(digits);
            ScanGroup(s) == if -0x8000_0000_0000_0000 <= v <= 0x7FFF_FFFF_FFFF_FFFF then Some(v) else None
  {}

  lemma SignRead(sign: string, digits: string, tail: string)
    requires sign in ["", "+", "-"] && Digits(digits)
    ensures var t := sign + (digits + tail);
            && (t[0] == '-' <==> sign == "-") && (t[0] == '-' || t[0] == '+' || '0' <= t[0] <= '9')
            && (if t[0] == '-' || t[0] == '+' then t[1..] else t) == digits + tail
  {
    var t := sign + (digits + tail);
    assert digits[0] in digits;
    if sign == "" {
      assert t == digits + tail && t[0] == digits[0];
    } else {
      assert t[0] == sign[0] && t[1..] == digits + tail;
    }
  }

  lemma FirstColon(head: string, rest: string)
    requires ':' !in head
    ensures var l := head + ":" + rest;
            IndexOf(l, ':') == |head| && l[..|head|] == head && l[|head| + 1..] == rest
  {
    var l := head + ":" + rest;
    assert l[|head|] == ':' && forall k :: 0 <= k < |head| ==> l[k] == head[k];
    assert forall k :: 0 <= k < |head| ==> head[k] in head;
    var i := IndexOf(l, ':');
    assert i == |head|;
  }

  lemma {:induction false} SpaceSkipped(space: string, t: string)
    requires AllSpace(space) && '\n' !in space && (t == "" || !IsSpace(t[0]))
    ensures SkipSpace(space + t) == Some(t)
  {
    if space == [] {
      assert space + t == t;
    } else {
      assert space[0] in space;
      assert (space + t)[1..] == space[1..] + t;
      SpaceSkipped(space[1..], t);
    }
  }

  lemma {:induction false} RunAt(s: string, n: nat)
    requires n <= |s| && (forall k :: 0 <= k < n ==> IsDigit(s[k])) && (n < |s| ==> !IsDigit(s[n]))
    ensures DigitRun(s) == n
  {
    if n > 0 {
      RunAt(s[1..], n - 1);
    }
  }

  const FIRST_UNPREFIXED := 1000

  type Groups = map<int, seq<string>>

  function Append(g: Groups, k: int, l: string): Groups {
    g[k := (if k in g then g[k] else []) + [l]]
  }

  datatype Parsed = Parsed(groups: Groups, next: int)

  function ParseOne(p: Parsed, l: string): Parsed {
    var g := GroupOf(l);
    if g.Some? then p.(groups := Append(p.groups, g.value.0, g.value.1))
    else Parsed(Append(p.groups, p.next, l), p.next + 1)
  }

  function Parse(labels: seq<string>): Parsed {
    if labels == [] then Parsed(map[], FIRST_UNPREFIXED)
    else ParseOne(Parse(labels[..|labels| - 1]), labels[|labels| - 1])
  }

  /** ParseGroups. */
  method ParseGroups(labels: seq<string>) returns (groups: Groups)
    ensures groups == Parse(labels).groups
  {
    groups := map[];
    var nextUnprefixed := FIRST_UNPREFIXED;
    for i := 0 to |labels|
      invariant Parse(labels[..i]) == Parsed(groups, nextUnprefixed)
    {
      var l := labels[i];
      assert labels[..i + 1][..i] == labels[..i];
      var idx := IndexOf(l, ':');
      if l != [] && l[0] == 'g' && idx < |l| && idx > 1 {
        var groupNum := ScanGroup(l[..idx]);
        if groupNum.Some? {
          groups := Append(groups, groupNum.value, l[idx + 1..]);
          continue;
        }
      }
      groups := Append(groups, nextUnprefixed, l);
      nextUnprefixed := nextUnprefixed + 1;
    }
    assert labels[..|labels|] == labels;
  }

  // ------------------------------------------------------------- the matchers

  predicate AllIn(ls: seq<string>, subs: set<string>) {
    forall i :: 0 <= i < |ls| ==> ls[i] in subs
  }

  /** Some group's labels are all subscribed. */
  predicate SomeGroupIn(groups: Groups, subs: set<string>) {
    exists k :: k in groups && groups[k] != [] && AllIn(groups[k], subs)
  }

  predicate Scoped(clean: string, prefix: string) {
    prefix <= clean
  }

  /** The server's required labels: rig and agent scopes must be subscribed. */
  predicate ServerRequires(l: string, subs: set<string>) {
    var clean := Strip(l);
    (Scoped(clean, "rig:") ==> clean in subs) && (Scoped(clean, "agent:") ==> clean in subs)
  }

  function AsRig(project: string): string
    requires Scoped(project, "project:")
  {
    "rig:" + project[8..]
  }

  function AsProject(rig: string): string
    requires Scoped(rig, "rig:")
  {
    "project:" + rig[4..]
  }

  /** The client's: project and rig scopes of one name stand for each other. */
  predicate ClientRequires(l: string, subs: set<string>) {
    var clean := Strip(l);
    && (Scoped(clean, "project:") ==> clean in subs || AsRig(clean) in subs)
    && (Scoped(clean, "rig:") ==> clean in subs || AsProject(clean) in subs)
    && (Scoped(clean, "agent:") ==> clean in subs)
  }

  predicate ServerMatches(labels: seq<string>, subs: set<string>) {
    (forall l :: l in labels ==> ServerRequires(l, subs)) && SomeGroupIn(Parse(labels).groups, subs)
  }

  predicate ClientMatches(labels: seq<string>, subs: set<string>) {
    (forall l :: l in labels ==> ClientRequires(l, subs)) && SomeGroupIn(Parse(labels).groups, subs)
  }

  /** The inner loop over one group. */
  method GroupMatches(groupLabels: seq<string>, subs: set<string>) returns (allMatch: bool)
    ensures allMatch == AllIn(groupLabels, subs)
  {
    for i := 0 to |groupLabels|
      invariant forall j :: 0 <= j < i ==> groupLabels[j] in subs
    {
      if groupLabels[i] !in subs {
        return false;
      }
    }
    return true;
  }

  /** The loop over groups that both matchers end with, in any order of the map's keys. */
  method AnyGroupMatches(groups: Groups, subs: set<string>) returns (r: bool)
    ensures r == SomeGroupIn(groups, subs)
  {
    var todo := groups.Keys;
    while todo != {}
      invariant todo <= groups.Keys
      invariant forall k :: k in groups && k !in todo ==> !(groups[k] != [] && AllIn(groups[k], subs))
      decreases |todo|
    {
      var k := NextKey(todo);
      todo := todo - {k};
      var groupLabels := groups[k];
      if |groupLabels| == 0 {
        continue;
      }
      var allMatch := GroupMatches(groupLabels, subs);
      if allMatch {
        return true;
      }
    }
    return false;
  }

  /** MatchesSubscriptions of the server. */
  method MatchesSubscriptions(adviceLabels: seq<string>, subscriptions: seq<string>) returns (r: bool)
    ensures r == ServerMatches(adviceLabels, set s | s in subscriptions)
  {
    var subSet := set s | s in subscriptions;
    for i := 0 to |adviceLabels|
      invariant forall j :: 0 <= j < i ==> ServerRequires(adviceLabels[j], subSet)
    {
      var clean := StripGroupPrefix(adviceLabels[i]);
      assert adviceLabels[i] in adviceLabels;
      if "rig:" <= clean && clean !in subSet {
        return false;
      }
      if "agent:" <= clean && clean !in subSet {
        return false;
      }
    }
    var groups := ParseGroups(adviceLabels);
    r := AnyGroupMatches(groups, subSet);
  }

  /** One turn of the client's required-label loop. */
  method ClientScopeHeld(l: string, subSet: set<string>) returns (held: bool)
    ensures held == ClientRequires(l, subSet)
  {
    var clean := StripGroupPrefix(l);
    if "project:" <= clean && clean !in subSet {
      if AsRig(clean) !in subSet {
        return false;
      }
    }
    if "rig:" <= clean && clean !in subSet {
      if AsProject(clean) !in subSet {
        return false;
      }
    }
    return !("agent:" <= clean && clean !in subSet);
  }

  /** matchesSubscriptions of the command line. */
  method ClientMatchesSubscriptions(adviceLabels: seq<string>, subSet: set<string>) returns (r: bool)
    ensures r == ClientMatches(adviceLabels, subSet)
  {
    for i := 0 to |adviceLabels|
      invariant forall j :: 0 <= j < i ==> ClientRequires(adviceLabels[j], subSet)
    {
      var held := ClientScopeHeld(adviceLabels[i], subSet);
      if !held {
        assert adviceLabels[i] in adviceLabels;
        return false;
      }
    }
    var groups := ParseGroups(adviceLabels);
    r := AnyGroupMatches(groups, subSet);
  }

  // ------------------------------------------------------- the logical form

  /** The labels without a group, in order; each is filed under the next number from 1000 on. */
  function Lones(labels: seq<string>): seq<string> {
    if labels == [] then []
    else
      var front, l := Lones(labels[..|labels| - 1]), labels[|labels| - 1];
      if GroupOf(l).None? then front + [l] else front
  }

  lemma {:induction false} LonesAre(labels: seq<string>)
    ensures forall l :: l in Lones(labels) <==> l in labels && GroupOf(l).None?
  {
    if labels != [] {
      var n := |labels| - 1;
      LonesAre(labels[..n]);
      assert labels == labels[..n] + [labels[n]];
    }
  }

  predicate InGroup(g: Groups, k: int, c: string) {
    k in g && c in g[k]
  }

  /** Some label of this number holds c inside. */
  predicate Numbered(labels: seq<string>, k: int, c: string) {
    exists l :: l in labels && GroupOf(l) == Some((k, c))
  }

  /** The label without a group that is filed under number k is c. */
  predicate LoneAt(labels: seq<string>, k: int, c: string) {
    var i := k - FIRST_UNPREFIXED;
    0 <= i < |Lones(labels)| && Lones(labels)[i] == c
  }

  /** What group k holds: the labels of that number, and the label without a group that is filed there. */
  predicate Member(labels: seq<string>, k: int, c: string) {
    Numbered(labels, k, c) || LoneAt(labels, k, c)
  }

  /** What parsing makes of any list of labels. */
  ghost predicate ParsedAs(labels: seq<string>, p: Parsed) {
    && p.next == FIRST_UNPREFIXED + |Lones(labels)|
    && (forall k :: k in p.groups ==> p.groups[k] != [])
    && (forall k, c :: InGroup(p.groups, k, c) <==> Member(labels, k, c))
  }

  lemma {:induction false} ParseMeans(labels: seq<string>)
    ensures ParsedAs(labels, Parse(labels))
  {
    if labels != [] {
      var n := |labels| - 1;
      assert labels == labels[..n] + [labels[n]];
      ParseMeans(labels[..n]);
      ParseOneMeans(labels[..n], Parse(labels[..n]), labels[n]);
    }
  }

  lemma AppendHolds(g: Groups, k0: int, c0: string)
    ensures forall k, c :: InGroup(Append(g, k0, c0), k, c) <==> InGroup(g, k, c) || (k == k0 && c == c0)
  {}

  lemma NumberedMore(front: seq<string>, l: string, k: int, c: string)
    ensures Numbered(front + [l], k, c) <==> Numbered(front, k, c) || GroupOf(l) == Some((k, c))
  {
    assert forall m :: m in front + [l] <==> m in front || m == l;
  }

  lemma LoneMore(front: seq<string>, l: string, k: int, c: string)
    ensures LoneAt(front + [l], k, c) <==>
            LoneAt(front, k, c) || (GroupOf(l).None? && k == FIRST_UNPREFIXED + |Lones(front)| && c == l)
  {
    assert (front + [l])[..|front|] == front;
  }

  lemma ParseOneMeans(front: seq<string>, p: Parsed, l: string)
    requires ParsedAs(front, p)
    ensures ParsedAs(front + [l], ParseOne(p, l))
  {
    var p' := ParseOne(p, l);
    assert (front + [l])[..|front|] == front;
    forall k, c ensures InGroup(p'.groups, k, c) <==> Member(front + [l], k, c) {
      NumberedMore(front, l, k, c);
      LoneMore(front, l, k, c);
      assert InGroup(p.groups, k, c) <==> Member(front, k, c);
      if GroupOf(l).Some? {
        AppendHolds(p.groups, GroupOf(l).value.0, GroupOf(l).value.1);
      } else {
        AppendHolds(p.groups, p.next, l);
      }
    }
  }

  /** Group k holds something, and all of it is subscribed. */
  ghost predicate Satisfied(labels: seq<string>, k: int, subs: set<string>) {
    (exists c :: Member(labels, k, c)) && (forall c :: Member(labels, k, c) ==> c in subs)
  }

  lemma GroupsAreSatisfied(labels: seq<string>, subs: set<string>)
    ensures SomeGroupIn(Parse(labels).groups, subs) <==> exists k :: Satisfied(labels, k, subs)
  {
    ParseMeans(labels);
    var g := Parse(labels).groups;
    forall k ensures Satisfied(labels, k, subs) <==> k in g && g[k] != [] && AllIn(g[k], subs) {
      if k in g {
        assert InGroup(g, k, g[k][0]);
        assert forall c :: Member(labels, k, c) <==> InGroup(g, k, c);
        assert AllIn(g[k], subs) <==> forall c :: c in g[k] ==> c in subs;
      }
      assert forall c :: Member(labels, k, c) ==> k in g;
    }
  }

  /** The server's answer: rig and agent scopes are subscribed, and all of some group. */
  lemma ServerMeans(labels: seq<string>, subs: set<string>)
    ensures ServerMatches(labels, subs) <==>
            && (forall l :: l in labels && ("rig:" <= Strip(l) || "agent:" <= Strip(l)) ==> Strip(l) in subs)
            && exists k :: Satisfied(labels, k, subs)
  {
    GroupsAreSatisfied(labels, subs);
    assert (forall l :: l in labels ==> ServerRequires(l, subs)) <==>
        (forall l :: l in labels && ("rig:" <= Strip(l) || "agent:" <= Strip(l)) ==> Strip(l) in subs);
  }

  /** The client's: a project or rig scope is subscribed under either of the two names. */
  lemma ClientMeans(labels: seq<string>, subs: set<string>)
    ensures ClientMatches(labels, subs) <==>
            && (forall l :: l in labels && "agent:" <= Strip(l) ==> Strip(l) in subs)
            && (forall l :: l in labels && "project:" <= Strip(l) ==>
                  Strip(l) in subs || "rig:" + Strip(l)[8..] in subs)
            && (forall l :: l in labels && "rig:" <= Strip(l) ==>
                  Strip(l) in subs || "project:" + Strip(l)[4..] in subs)
            && exists k :: Satisfied(labels, k, subs)
  {
    GroupsAreSatisfied(labels, subs);
  }

  function Elements(labels: seq<string>): set<string> {
    set l | l in labels
  }

  /** The alternative a label belongs to: itself alone, or the labels inside its group. */
  function Alternative(labels: set<string>, l: string): set<string> {
    if GroupOf(l).None? then {l}
    else set m | m in labels && GroupOf(m).Some? && GroupOf(m).value.0 == GroupOf(l).value.0 :: GroupOf(m).value.1
  }

  /** Some label without a group is subscribed, or all labels of some group are. */
  ghost predicate Wanted(labels: set<string>, subs: set<string>) {
    exists l :: l in labels && Alternative(labels, l) <= subs
  }

  /** No group has a number that is given to a label without a group. */
  predicate NoCollision(labels: seq<string>) {
    forall l :: l in labels && GroupOf(l).Some? ==>
      !(FIRST_UNPREFIXED <= GroupOf(l).value.0 < FIRST_UNPREFIXED + |Lones(labels)|)
  }

  /** Every alternative contains a whole group as it is filed. */
  ghost predicate Unmixed(labels: seq<string>) {
    forall l :: l in labels ==> exists k :: Satisfied(labels, k, Alternative(Elements(labels), l))
  }

  lemma SatisfiedMore(labels: seq<string>, k: int, subs: set<string>, more: set<string>)
    requires Satisfied(labels, k, subs) && subs <= more
    ensures Satisfied(labels, k, more)
  {}

  /** A group that is satisfied contains an alternative that is. */
  lemma SatisfiedIsWanted(labels: seq<string>, k: int, subs: set<string>)
    requires Satisfied(labels, k, subs)
    ensures Wanted(Elements(labels), subs)
  {
    LonesAre(labels);
    var c :| Member(labels, k, c);
    if Numbered(labels, k, c) {
      var l :| l in labels && GroupOf(l) == Some((k, c));
      forall x | x in Alternative(Elements(labels), l) ensures x in subs {
        assert Numbered(labels, k, x);
        assert Member(labels, k, x);
      }
      assert l in Elements(labels);
    } else {
      assert c in Lones(labels);
      assert c in Elements(labels) && Alternative(Elements(labels), c) <= subs;
    }
  }

  /** Without collisions each alternative is filed as a group of its own. */
  lemma ApartIsUnmixed(labels: seq<string>)
    requires NoCollision(labels)
    ensures Unmixed(labels)
  {
    LonesAre(labels);
    forall l | l in labels ensures exists k :: Satisfied(labels, k, Alternative(Elements(labels), l)) {
      if GroupOf(l).Some? {
        NumberedApart(labels, l);
      } else {
        var i :| 0 <= i < |Lones(labels)| && Lones(labels)[i] == l;
        LoneApart(labels, i);
        assert Alternative(Elements(labels), l) == {l};
        assert Satisfied(labels, FIRST_UNPREFIXED + i, Alternative(Elements(labels), l));
      }
    }
  }

  lemma LoneApart(labels: seq<string>, i: nat)
    requires NoCollision(labels) && i < |Lones(labels)|
    ensures Satisfied(labels, FIRST_UNPREFIXED + i, {Lones(labels)[i]})
  {
    var k, l := FIRST_UNPREFIXED + i, Lones(labels)[i];
    assert LoneAt(labels, k, l);
    assert Member(labels, k, l);
    forall c ensures !Numbered(labels, k, c) {
      assert forall m :: m in labels && GroupOf(m).Some? ==> GroupOf(m) != Some((k, c));
    }
  }

  lemma NumberedApart(labels: seq<string>, l: string)
    requires NoCollision(labels) && l in labels && GroupOf(l).Some?
    ensures Satisfied(labels, GroupOf(l).value.0, Alternative(Elements(labels), l))
  {
    var k := GroupOf(l).value.0;
    assert Numbered(labels, k, GroupOf(l).value.1);
    assert Member(labels, k, GroupOf(l).value.1);
    forall c | Member(labels, k, c) ensures c in Alternative(Elements(labels), l) {
      var m :| m in labels && GroupOf(m) == Some((k, c));
      assert m in Elements(labels);
    }
  }

  /**
   What the group loops decide, against the logical form over the set of labels.
   For any labels a match is a match of the form. The two agree under every set of
   subscriptions exactly when each alternative contains a whole group as filed.
   */
  lemma GroupsMeanWanted(labels: seq<string>)
    ensures forall subs :: SomeGroupIn(Parse(labels).groups, subs) ==> Wanted(Elements(labels), subs)
    ensures (forall subs :: Wanted(Elements(labels), subs) ==> SomeGroupIn(Parse(labels).groups, subs)) <==>
            Unmixed(labels)
  {
    forall subs ensures SomeGroupIn(Parse(labels).groups, subs) ==> Wanted(Elements(labels), subs) {
      GroupsAreSatisfied(labels, subs);
      if k :| Satisfied(labels, k, subs) {
        SatisfiedIsWanted(labels, k, subs);
      }
    }
    if Unmixed(labels) {
      forall subs | Wanted(Elements(labels), subs) ensures SomeGroupIn(Parse(labels).groups, subs) {
        UnmixedIsEnough(labels, subs);
      }
    }
    if forall subs :: Wanted(Elements(labels), subs) ==> SomeGroupIn(Parse(labels).groups, subs) {
      forall l | l in labels ensures exists k :: Satisfied(labels, k, Alternative(Elements(labels), l)) {
        var least := Alternative(Elements(labels), l);
        assert l in Elements(labels) && least <= least;
        assert Wanted(Elements(labels), least);
        GroupsAreSatisfied(labels, least);
      }
    }
  }

  lemma UnmixedIsEnough(labels: seq<string>, subs: set<string>)
    requires Unmixed(labels) && Wanted(Elements(labels), subs)
    ensures SomeGroupIn(Parse(labels).groups, subs)
  {
    var l :| l in Elements(labels) && Alternative(Elements(labels), l) <= subs;
    var k :| Satisfied(labels, k, Alternative(Elements(labels), l));
    SatisfiedMore(labels, k, Alternative(Elements(labels), l), subs);
    GroupsAreSatisfied(labels, subs);
  }

  /**
   The matchers in logical form: every scope they require is subscribed, and some
   label stands alone and is subscribed or some group is fully subscribed. It is
   necessary for any labels, and sufficient when no group's number collides with
   those given to labels without a group.
   */
  lemma MatchesLogically(labels: seq<string>, subs: set<string>)
    ensures ServerMatches(labels, subs) ==>
              (forall l :: l in Elements(labels) ==> ServerRequires(l, subs)) && Wanted(Elements(labels), subs)
    ensures ClientMatches(labels, subs) ==>
              (forall l :: l in Elements(labels) ==> ClientRequires(l, subs)) && Wanted(Elements(labels), subs)
    ensures NoCollision(labels) ==>
              (ServerMatches(labels, subs) <==>
               (forall l :: l in Elements(labels) ==> ServerRequires(l, subs)) && Wanted(Elements(labels), subs))
    ensures NoCollision(labels) ==>
              (ClientMatches(labels, subs) <==>
               (forall l :: l in Elements(labels) ==> ClientRequires(l, subs)) && Wanted(Elements(labels), subs))
  {
    GroupsMeanWanted(labels);
    if NoCollision(labels) {
      ApartIsUnmixed(labels);
    }
    assert forall l :: l in Elements(labels) <==> l in labels;
  }

  /** Group numbers below 1000 never collide. */
  lemma SmallNumbersApart(labels: seq<string>)
    requires forall l :: l in labels && GroupOf(l).Some? ==> GroupOf(l).value.0 < FIRST_UNPREFIXED
    ensures NoCollision(labels)
  {}

  function CountIf(labels: seq<string>, p: string -> bool): nat {
    if labels == [] then 0
    else CountIf(labels[..|labels| - 1], p) + if p(labels[|labels| - 1]) then 1 else 0
  }

  lemma CountMore(front: seq<string>, l: string, p: string -> bool)
    ensures CountIf(front + [l], p) == CountIf(front, p) + if p(l) then 1 else 0
  {
    assert (front + [l])[..|front|] == front;
  }

  lemma {:induction false} CountBoth(a: seq<string>, b: seq<string>, p: string -> bool)
    ensures CountIf(a + b, p) == CountIf(a, p) + CountIf(b, p)
  {
    if b == [] {
      assert a + b == a;
    } else {
      var front, l := b[..|b| - 1], b[|b| - 1];
      CountBoth(a, front, p);
      CountMore(a + front, l, p);
      assert a + b == (a + front) + [l];
    }
  }

  lemma {:induction false} PermutedCount(labels: seq<string>, other: seq<string>, p: string -> bool)
    requires multiset(labels) == multiset(other)
    ensures CountIf(labels, p) == CountIf(other, p)
  {
    if labels == [] {
      assert |multiset(other)| == 0;
    } else {
      var n := |labels| - 1;
      var l := labels[n];
      assert labels == labels[..n] + [l];
      assert l in multiset(labels);
      var i :| 0 <= i < |other| && other[i] == l;
      PermutedCount(labels[..n], Without(labels, other, i), p);
      CountBoth(other[..i], other[i + 1..], p);
      CountMore(other[..i], l, p);
      CountBoth(other[..i] + [l], other[i + 1..], p);
      assert other == other[..i] + [l] + other[i + 1..];
    }
  }

  lemma {:induction false} LonesCounted(labels: seq<string>)
    ensures |Lones(labels)| == CountIf(labels, l => GroupOf(l).None?)
  {
    if labels != [] {
      LonesCounted(labels[..|labels| - 1]);
    }
  }

  lemma PermutedLones(labels: seq<string>, other: seq<string>)
    requires multiset(labels) == multiset(other)
    ensures |Lones(labels)| == |Lones(other)|
  {
    var p := l => GroupOf(l).None?;
    PermutedCount(labels, other, p);
    LonesCounted(labels);
    LonesCounted(other);
  }

  /** A permutation of a list, without the element that is last in the list. */
  function Without(labels: seq<string>, other: seq<string>, i: nat): (rest: seq<string>)
    requires i < |other| && multiset(labels) == multiset(other) && labels != [] && other[i] == labels[|labels| - 1]
    ensures multiset(labels[..|labels| - 1]) == multiset(rest)
  {
    assert labels == labels[..|labels| - 1] + [other[i]];
    assert other == other[..i] + [other[i]] + other[i + 1..];
    assert multiset(labels[..|labels| - 1]) == multiset(labels) - multiset{other[i]};
    assert multiset(other[..i] + other[i + 1..]) == multiset(other) - multiset{other[i]};
    other[..i] + other[i + 1..]
  }

  /** Without collisions the order of the labels does not matter. */
  lemma OrderDoesNotMatter(labels: seq<string>, other: seq<string>, subs: set<string>)
    requires multiset(labels) == multiset(other) && NoCollision(labels)
    ensures ServerMatches(labels, subs) == ServerMatches(other, subs)
    ensures ClientMatches(labels, subs) == ClientMatches(other, subs)
  {
    forall l ensures l in other <==> l in labels {
      assert l in multiset(labels) <==> l in multiset(other);
    }
    assert Elements(labels) == Elements(other);
    PermutedLones(labels, other);
    MatchesLogically(labels, subs);
    MatchesLogically(other, subs);
  }

  /**
   Collisions do harm: a label without a group that shares its number with a
   label of other text, and occurs nowhere else, no longer matches when only it is
   subscribed.
   */
  lemma LargeGroupNumbersCollide(labels: seq<string>, i: nat, m: string)
    requires i < |Lones(labels)| && m in labels && GroupOf(m).Some? && GroupOf(m).value.0 == FIRST_UNPREFIXED + i
    requires GroupOf(m).value.1 != Lones(labels)[i]
    requires forall j :: 0 <= j < |Lones(labels)| && j != i ==> Lones(labels)[j] != Lones(labels)[i]
    requires forall l :: l in labels && GroupOf(l).Some? ==> GroupOf(l).value.1 != Lones(labels)[i]
    ensures Wanted(Elements(labels), {Lones(labels)[i]})
    ensures !SomeGroupIn(Parse(labels).groups, {Lones(labels)[i]})
  {
    var a, k0 := Lones(labels)[i], FIRST_UNPREFIXED + i;
    LonesAre(labels);
    assert a in Lones(labels);
    assert a in Elements(labels) && Alternative(Elements(labels), a) <= {a};
    GroupsAreSatisfied(labels, {a});
    assert Numbered(labels, k0, GroupOf(m).value.1);
    assert Member(labels, k0, GroupOf(m).value.1);
    forall k ensures !Satisfied(labels, k, {a}) {
      if k != k0 {
        forall c | Member(labels, k, c) ensures c != a {}
      }
    }
  }

  lemma ScansThousand()
    ensures GroupOf("g1000:y") == Some((1000, "y"))
  {
    var t := "1000";
    assert t[..3] == "100" && "100"[..2] == "10" && "10"[..1] == "1" && "1"[..0] == "";
    assert Value(t) == 1000;
    assert "g" + ("" + ("" + (t + ""))) + ":" + "y" == "g1000:y";
    GroupForms("", "", t, "", "y");
  }

  /** The smallest such list: with only "x" subscribed, the group "g1000:y" takes "x" with it. */
  lemma ThousandTakesFirst()
    ensures var labels := ["x", "g1000:y"];
            Wanted(Elements(labels), {"x"}) && !SomeGroupIn(Parse(labels).groups, {"x"})
  {
    var labels := ["x", "g1000:y"];
    ScansThousand();
    assert IndexOf("x", ':') == 1;
    assert labels[..1] == ["x"] && labels[..1][..0] == [];
    assert Lones(labels[..1]) == ["x"];
    assert Lones(labels) == ["x"];
    LargeGroupNumbersCollide(labels, 0, "g1000:y");
  }

  /** Where two labels without a group and one numbered 1000 are filed. */
  lemma FiledTriple(a: string, z: string, m: string, c: string)
    requires GroupOf(a).None? && GroupOf(z).None? && GroupOf(m) == Some((FIRST_UNPREFIXED, c))
    ensures Lones([a, z, m]) == [a, z]
    ensures forall k, x :: Numbered([a, z, m], k, x) <==> k == FIRST_UNPREFIXED && x == c
  {
    var labels := [a, z, m];
    assert labels[..2] == [a, z] && labels[..2][..1] == [a] && labels[..2][..1][..0] == [];
    assert Lones([a]) == [a];
    assert Lones([a, z]) == [a, z];
    assert labels[2] in labels;
  }

  /**
   Then the order can matter: two labels without a group change places, and the one
   that shares group 1000 with a third label of other text is the one that no longer matches.
   */
  lemma OrderCanMatter(a: string, z: string, m: string, c: string)
    requires GroupOf(a).None? && GroupOf(z).None? && GroupOf(m) == Some((FIRST_UNPREFIXED, c))
    requires a != z && c != a
    ensures !SomeGroupIn(Parse([a, z, m]).groups, {a}) && SomeGroupIn(Parse([z, a, m]).groups, {a})
  {
    FiledTriple(a, z, m, c);
    FiledTriple(z, a, m, c);
    assert [a, z, m][2] == m;
    LargeGroupNumbersCollide([a, z, m], 0, m);
    assert LoneAt([z, a, m], FIRST_UNPREFIXED + 1, a);
    assert Member([z, a, m], FIRST_UNPREFIXED + 1, a);
    assert Satisfied([z, a, m], FIRST_UNPREFIXED + 1, {a});
    GroupsAreSatisfied([z, a, m], {a});
  }

  lemma LetterRequiresNothing(l: string, subs: set<string>)
    requires |l| == 1
    ensures GroupOf(l).None? && ServerRequires(l, subs) && ClientRequires(l, subs)
  {
    assert IndexOf(l, ':') <= 1;
  }

  lemma OnlyGroupsCount(a: string, b: string, c: string, subs: set<string>)
    requires ServerRequires(a, subs) && ServerRequires(b, subs) && ServerRequires(c, subs)
    requires ClientRequires(a, subs) && ClientRequires(b, subs) && ClientRequires(c, subs)
    ensures ServerMatches([a, b, c], subs) == SomeGroupIn(Parse([a, b, c]).groups, subs)
    ensures ClientMatches([a, b, c], subs) == SomeGroupIn(Parse([a, b, c]).groups, subs)
  {}

  lemma ThousandRequiresNothing(subs: set<string>)
    ensures ServerRequires("g1000:y", subs) && ClientRequires("g1000:y", subs)
  {
    StripAt("g1000:y", 5);
    assert Strip("g1000:y") == "y";
  }

  /** With plain labels so do the matchers themselves. */
  lemma ThousandDependsOnOrder()
    ensures !ServerMatches(["x", "z", "g1000:y"], {"x"}) && ServerMatches(["z", "x", "g1000:y"], {"x"})
    ensures !ClientMatches(["x", "z", "g1000:y"], {"x"}) && ClientMatches(["z", "x", "g1000:y"], {"x"})
  {
    LetterRequiresNothing("x", {"x"});
    LetterRequiresNothing("z", {"x"});
    ThousandRequiresNothing({"x"});
    OnlyGroupsCount("x", "z", "g1000:y", {"x"});
    OnlyGroupsCount("z", "x", "g1000:y", {"x"});
    ScansThousand();
    OrderCanMatter("x", "z", "g1000:y", "y");
  }

  // -------------------------------------------------------------- monotonicity

  /** More subscriptions never lose advice, for any labels at all, with either matcher. */
  lemma Monotone(labels: seq<string>, subs: set<string>, more: set<string>)
    requires subs <= more
    ensures ServerMatches(labels, subs) ==> ServerMatches(labels, more)
    ensures ClientMatches(labels, subs) ==> ClientMatches(labels, more)
  {
    var g := Parse(labels).groups;
    if SomeGroupIn(g, subs) {
      var k :| k in g && g[k] != [] && AllIn(g[k], subs);
      assert AllIn(g[k], more);
    }
  }

  // --------------------------------------------------- the two matchers compared

  /** Whoever is subscribed to a project is subscribed to the rig of that name. */
  predicate RigClosed(subs: set<string>) {
    forall s :: s in subs && Scoped(s, "project:") ==> AsRig(s) in subs
  }

  predicate NoProjectScope(labels: seq<string>) {
    forall l :: l in labels ==> !Scoped(Strip(l), "project:")
  }

  /**
   On subscriptions that hold rig:X beside every project:X, whatever the client
   shows the server delivers; without project-scoped labels the two agree.
   */
  lemma ClientImpliesServer(labels: seq<string>, subs: set<string>)
    requires RigClosed(subs)
    ensures ClientMatches(labels, subs) ==> ServerMatches(labels, subs)
    ensures NoProjectScope(labels) ==> (ClientMatches(labels, subs) <==> ServerMatches(labels, subs))
  {
    forall l | l in labels
      ensures ClientRequires(l, subs) ==> ServerRequires(l, subs)
      ensures ServerRequires(l, subs) && !Scoped(Strip(l), "project:") ==> ClientRequires(l, subs)
    {
      var clean := Strip(l);
      if Scoped(clean, "rig:") {
        assert AsProject(clean)[8..] == clean[4..];
        assert AsRig(AsProject(clean)) == clean;
      }
    }
  }

  /** A scope is read as it is written: no group prefix starts with its letter. */
  lemma ScopeStandsAlone(s: string)
    requires Scoped(s, "project:") || Scoped(s, "rig:")
    ensures Strip(s) == s && GroupOf(s).None?
  {
    assert s[0] == 'p' || s[0] == 'r';
    assert s[..IndexOf(s, ':')] == [] || s[..IndexOf(s, ':')][0] == s[0];
  }

  /** For a project without its rig, advice about the project and the rig separates the two matchers. */
  lemma OpenProjectSeparates(subs: set<string>, s: string)
    requires s in subs && Scoped(s, "project:") && AsRig(s) !in subs
    ensures ClientMatches([s, AsRig(s)], subs) && !ServerMatches([s, AsRig(s)], subs)
  {
    var labels := [s, AsRig(s)];
    ScopeStandsAlone(s);
    ScopeStandsAlone(AsRig(s));
    assert AsProject(AsRig(s)) == s;
    assert s[0] == 'p' && AsRig(s)[0] == 'r';
    assert labels[0] == s && labels[1] == AsRig(s);
    assert forall l :: l in Elements(labels) <==> l == s || l == AsRig(s);
    assert Alternative(Elements(labels), s) == {s};
    assert NoCollision(labels) && Wanted(Elements(labels), subs);
    MatchesLogically(labels, subs);
    assert ClientRequires(s, subs) && ClientRequires(AsRig(s), subs);
    assert AsRig(s) in labels && !ServerRequires(AsRig(s), subs);
  }

  /**
   Exactly when the server delivers whatever the client shows: the subscriptions
   hold rig:X beside every project:X.
   */
  lemma ClosureIsNeeded(subs: set<string>)
    ensures (forall ls: seq<string> :: ClientMatches(ls, subs) ==> ServerMatches(ls, subs)) <==> RigClosed(subs)
  {
    if RigClosed(subs) {
      forall ls: seq<string> ensures ClientMatches(ls, subs) ==> ServerMatches(ls, subs) {
        ClientImpliesServer(ls, subs);
      }
    } else {
      var s :| s in subs && Scoped(s, "project:") && AsRig(s) !in subs;
      OpenProjectSeparates(subs, s);
    }
  }

  // ------------------------------------------------------- the claim's advice diff

  function Singularize(plural: string): string {
    if plural != [] && plural[|plural| - 1] == 's' then plural[..|plural| - 1] else plural
  }

  /** buildAgentSubscriptions, with the environment's agent, project and role as arguments. */
  method BuildAgentSubscriptions(agent: string, project: string, role: string) returns (subs: seq<string>)
    ensures RigClosed(set s | s in subs)
    ensures forall s :: s in subs <==>
              || s == "global"
              || (agent != "" && s == "agent:" + agent)
              || (project != "" && (s == "project:" + project || s == "rig:" + project))
              || (role != "" && s == "role:" + role)
              || (role != "" && role[|role| - 1] == 's' && s == "role:" + role[..|role| - 1])
  {
    subs := ["global"];
    if agent != "" {
      subs := subs + ["agent:" + agent];
    }
    if project != "" {
      subs := subs + ["project:" + project];
      subs := subs + ["rig:" + project];
    }
    ghost var scoped := subs;
    if role != "" {
      subs := subs + ["role:" + role];
      var singular := Singularize(role);
      if singular != role {
        subs := subs + ["role:" + singular];
      }
    }
    ScopesOf((set s | s in subs), agent, project);
  }

  /** The only project scope an agent holds comes with its rig. */
  lemma ScopesOf(subs: set<string>, agent: string, project: string)
    requires project != "" ==> "rig:" + project in subs
    requires forall s :: s in subs ==>
               s == "global" || s == "agent:" + agent || "role:" <= s || "rig:" <= s ||
               (project != "" && s == "project:" + project)
    ensures RigClosed(subs)
  {
    forall s | s in subs && Scoped(s, "project:") ensures AsRig(s) in subs {
      assert s[0] == 'p' && "global"[0] == 'g' && ("agent:" + agent)[0] == 'a';
      assert s == "project:" + project;
      assert AsRig(s) == "rig:" + project;
    }
  }

  predicate IsTargetingLabel(l: string) {
    var clean := Strip(l);
    clean == "global" || "project:" <= clean || "rig:" <= clean || "role:" <= clean || "agent:" <= clean
  }

  datatype AdviceBead = AdviceBead(id: string, labels: seq<string>)

  /**
   The subscriptions the diff is made with let the client show only what the
   server delivers exactly when every claimed project comes with its rig.
   */
  lemma ClaimMayOutrunServer(baseSubs: seq<string>, claimed: seq<string>)
    requires RigClosed(Elements(baseSubs))
    ensures var enriched := Elements(baseSubs + Targeting(claimed));
            (forall ls: seq<string> :: ClientMatches(ls, enriched) ==> ServerMatches(ls, enriched)) <==>
            (forall l :: l in claimed && Scoped(l, "project:") ==> AsRig(l) in claimed || AsRig(l) in baseSubs)
  {
    var enriched := Elements(baseSubs + Targeting(claimed));
    TargetingAre(claimed);
    ClosureIsNeeded(enriched);
    assert forall l :: l in enriched <==> l in Elements(baseSubs) || (l in claimed && IsTargetingLabel(l));
    forall l | Scoped(l, "project:") ensures IsTargetingLabel(l) && IsTargetingLabel(AsRig(l)) {
      ScopeStandsAlone(l);
      ScopeStandsAlone(AsRig(l));
    }
  }

  lemma {:induction false} TargetingAre(labels: seq<string>)
    ensures forall l :: l in Targeting(labels) <==>
              && l in labels
              && var clean := Strip(l);
              || clean == "global" || "project:" <= clean || "rig:" <= clean || "role:" <= clean || "agent:" <= clean
  {
    if labels != [] {
      var n := |labels| - 1;
      TargetingAre(labels[..n]);
      assert labels == labels[..n] + [labels[n]];
    }
  }

  /** The diff loop of printAdviceDiff, after the early return when no label targets anyone. */
  method AdviceDiff(baseSubs: seq<string>, claimed: seq<string>, allAdvice: seq<AdviceBead>)
      returns (diff: seq<AdviceBead>)
    ensures diff == Gained(allAdvice, Elements(baseSubs), Elements(baseSubs + Targeting(claimed)))
    ensures forall a :: a in diff <==>
              && a in allAdvice && !ClientMatches(a.labels, Elements(baseSubs))
              && ClientMatches(a.labels, Elements(baseSubs + Targeting(claimed)))
  {
    GainedAre(allAdvice, Elements(baseSubs), Elements(baseSubs + Targeting(claimed)));
    var enriched := baseSubs;
    for i := 0 to |claimed|
      invariant enriched == baseSubs + Targeting(claimed[..i])
    {
      assert claimed[..i + 1][..i] == claimed[..i];
      if IsTargetingLabel(claimed[i]) {
        enriched := enriched + [claimed[i]];
      }
    }
    assert claimed[..|claimed|] == claimed;
    diff := [];
    if |enriched| == |baseSubs| {
      assert enriched == baseSubs;
      NothingGained(allAdvice, Elements(baseSubs));
      return;
    }
    var baseSet, enrichedSet := Elements(baseSubs), Elements(enriched);
    for i := 0 to |allAdvice|
      invariant diff == Gained(allAdvice[..i], baseSet, enrichedSet)
    {
      assert allAdvice[..i + 1][..i] == allAdvice[..i];
      var matchesEnriched := ClientMatchesSubscriptions(allAdvice[i].labels, enrichedSet);
      var matchesBase := ClientMatchesSubscriptions(allAdvice[i].labels, baseSet);
      if matchesEnriched && !matchesBase {
        diff := diff + [allAdvice[i]];
      }
    }
    assert allAdvice[..|allAdvice|] == allAdvice;
  }

  function Targeting(labels: seq<string>): seq<string> {
    if labels == [] then []
    else
      var front, l := Targeting(labels[..|labels| - 1]), labels[|labels| - 1];
      if IsTargetingLabel(l) then front + [l] else front
  }

  function Matching(advice: seq<AdviceBead>, subs: set<string>): seq<AdviceBead> {
    if advice == [] then []
    else
      var front, a := Matching(advice[..|advice| - 1], subs), advice[|advice| - 1];
      if ClientMatches(a.labels, subs) then front + [a] else front
  }

  function Gained(advice: seq<AdviceBead>, subs: set<string>, more: set<string>): seq<AdviceBead> {
    if advice == [] then []
    else
      var front, a := Gained(advice[..|advice| - 1], subs, more), advice[|advice| - 1];
      if ClientMatches(a.labels, more) && !ClientMatches(a.labels, subs) then front + [a] else front
  }

  lemma {:induction false} GainedAre(advice: seq<AdviceBead>, subs: set<string>, more: set<string>)
    ensures forall a :: a in Gained(advice, subs, more) <==>
              a in advice && !ClientMatches(a.labels, subs) && ClientMatches(a.labels, more)
  {
    if advice != [] {
      var n := |advice| - 1;
      GainedAre(advice[..n], subs, more);
      assert advice == advice[..n] + [advice[n]];
    }
  }

  lemma {:induction false} NothingGained(advice: seq<AdviceBead>, subs: set<string>)
    ensures Gained(advice, subs, subs) == []
  {
    if advice != [] {
      NothingGained(advice[..|advice| - 1], subs);
    }
  }

  /**
   The diff is exactly what the claim adds: with it, the advice an agent already
   saw is the advice it sees afterwards, and an agent's own subscriptions never lose any.
   */
  lemma {:induction false} DiffIsGain(advice: seq<AdviceBead>, subs: set<string>, more: set<string>)
    requires subs <= more
    ensures multiset(Matching(advice, more)) ==
            multiset(Matching(advice, subs)) + multiset(Gained(advice, subs, more))
    ensures forall a :: a in Matching(advice, subs) ==> a in Matching(advice, more)
  {
    if advice != [] {
      var n := |advice| - 1;
      DiffIsGain(advice[..n], subs, more);
      Monotone(advice[n].labels, subs, more);
    }
  }
}
