/**
 Topic patterns (internal/server/sse.go, matchTopicPattern and matchesTopic).
 A topic is a dot-separated list of segments; in a pattern `*` stands for one
 segment and `>` for one or more remaining segments.
 */
module Topics {
  import opened Strings

  const ANY := "*"
  const REST := ">"

  /** The meaning of a pattern, segment by segment. */
  predicate MatchSegments(pat: seq<string>, top: seq<string>) {
    if pat == [] then top == []
    else if pat[0] == REST then top != []
    else top != [] && (pat[0] == ANY || pat[0] == top[0]) && MatchSegments(pat[1..], top[1..])
  }

  predicate Matches(pattern: string, topic: string) {
    MatchSegments(Split(pattern, '.'), Split(topic, '.'))
  }

  /** A client without filters takes every topic. */
  predicate MatchesAny(topics: seq<string>, topic: string) {
    topics == [] || exists i :: 0 <= i < |topics| && Matches(topics[i], topic)
  }

  /** matchTopicPattern: a string-equality test, then a loop with early returns. */
  method MatchTopicPattern(pattern: string, topic: string) returns (ok: bool)
    ensures ok == Matches(pattern, topic)
  {
    if pattern == topic {
      EveryTopicMatchesItself(Split(topic, '.'));
      return true;
    }
    var patParts, topParts := Split(pattern, '.'), Split(topic, '.');
    var i := 0;
    while i < |patParts|
      invariant 0 <= i <= |patParts| && i <= |topParts|
      invariant Matches(pattern, topic) == MatchSegments(patParts[i..], topParts[i..])
    {
      if patParts[i] == REST {
        return i < |topParts|;
      }
      if i >= |topParts| {
        return false;
      }
      if patParts[i] != ANY && patParts[i] != topParts[i] {
        return false;
      }
      assert patParts[i..][1..] == patParts[i + 1..] && topParts[i..][1..] == topParts[i + 1..];
      i := i + 1;
    }
    return |patParts| == |topParts|;
  }

  /** matchesTopic of an SSE client. */
  method MatchesTopic(topics: seq<string>, topic: string) returns (ok: bool)
    ensures ok == MatchesAny(topics, topic)
  {
    if |topics| == 0 {
      return true;
    }
    for i := 0 to |topics|
      invariant forall j :: 0 <= j < i ==> !Matches(topics[j], topic)
    {
      var m := MatchTopicPattern(topics[i], topic);
      if m {
        return true;
      }
    }
    return false;
  }

  /**
   Every pattern matches itself read as a topic, whatever wildcards it holds: the
   string-equality test in front of the loop never changes the answer.
   */
  lemma {:induction false} EveryTopicMatchesItself(segs: seq<string>)
    ensures MatchSegments(segs, segs)
  {
    if segs != [] {
      EveryTopicMatchesItself(segs[1..]);
    }
  }

  /** Where the first `>` stands, or the number of segments. */
  function FirstRest(pat: seq<string>): (k: nat)
    ensures k <= |pat|
    ensures forall i :: 0 <= i < k ==> pat[i] != REST
    ensures k < |pat| ==> pat[k] == REST
  {
    if pat == [] || pat[0] == REST then 0 else 1 + FirstRest(pat[1..])
  }

  predicate SegmentsAgree(pat: seq<string>, top: seq<string>, k: nat)
    requires k <= |pat| && k <= |top|
  {
    forall i :: 0 <= i < k ==> pat[i] == ANY || pat[i] == top[i]
  }

  /**
   The pattern language by position: the segments before the first `>` agree
   one by one, and then the topic has something left exactly when `>` was there.
   Whatever the pattern holds after its first `>` is ignored.
   */
  lemma {:induction false} MatchByPosition(pat: seq<string>, top: seq<string>)
    ensures var k := FirstRest(pat);
            MatchSegments(pat, top) <==>
              (if k < |pat| then |top| > k else |top| == k) && SegmentsAgree(pat, top, k)
  {
    var k := FirstRest(pat);
    if pat != [] && pat[0] != REST && top != [] {
      MatchByPosition(pat[1..], top[1..]);
      var k1 := FirstRest(pat[1..]);
      if k <= |top| {
        assert SegmentsAgree(pat, top, k) <==>
            (pat[0] == ANY || pat[0] == top[0]) && SegmentsAgree(pat[1..], top[1..], k1) by {
          forall i | 1 <= i < k ensures pat[i] == pat[1..][i - 1] && top[i] == top[1..][i - 1] {}
          forall i | 0 <= i < k1 ensures pat[i + 1] == pat[1..][i] && top[i + 1] == top[1..][i] {}
        }
      }
    }
  }

  predicate WildcardFree(s: string) {
    forall p :: p in Split(s, '.') ==> p != ANY && p != REST
  }

  /** A pattern without wildcards matches exactly one topic: itself. */
  lemma LiteralMatchesOnlyItself(pattern: string, topic: string)
    requires WildcardFree(pattern)
    ensures Matches(pattern, topic) <==> pattern == topic
  {
    var pat, top := Split(pattern, '.'), Split(topic, '.');
    if pattern == topic {
      EveryTopicMatchesItself(pat);
    } else if Matches(pattern, topic) {
      MatchByPosition(pat, top);
      assert forall i :: 0 <= i < |pat| ==> pat[i] in pat;
      assert pat == top;
      JoinSplit(pattern, '.');
      JoinSplit(topic, '.');
    }
  }

  /** A wildcard-free run of segments before a final `>` fixes the topic's first segments. */
  lemma {:induction false} SuffixSegments(pat: seq<string>, top: seq<string>)
    requires forall p :: p in pat ==> p != ANY && p != REST
    ensures MatchSegments(pat + [REST], top) <==> |top| > |pat| && pat <= top
  {
    if pat != [] {
      assert pat[0] in pat;
      assert (pat + [REST])[1..] == pat[1..] + [REST] && (pat + [REST])[0] == pat[0];
      if top != [] {
        assert forall p :: p in pat[1..] ==> p in pat;
        SuffixSegments(pat[1..], top[1..]);
        assert pat == [pat[0]] + pat[1..] && top == [top[0]] + top[1..];
      }
    }
  }

  /**
   Segments and strings agree on suffix wildcards: `prefix.>` matches exactly the
   topics that begin with `prefix.` as a string.
   */
  lemma SuffixWildcardIsPrefix(prefix: string, topic: string)
    requires WildcardFree(prefix)
    ensures Matches(prefix + ".>", topic) <==> prefix + "." <= topic
  {
    var pat, top := Split(prefix, '.'), Split(topic, '.');
    assert Matches(prefix + ".>", topic) <==> |top| > |pat| && pat <= top by {
      SplitAtom(">", '.');
      SplitConcat(prefix, '.', ">");
      assert prefix + ".>" == prefix + (['.'] + ">");
      SuffixSegments(pat, top);
    }
    if prefix + "." <= topic {
      var rest := topic[|prefix| + 1..];
      assert topic == prefix + (['.'] + rest);
      SplitConcat(prefix, '.', rest);
    } else if |top| > |pat| && pat <= top {
      SharedSegmentsSharePrefix(prefix, topic);
    }
  }

  /** `prefix.*` matches exactly the topics that add one segment to the prefix. */
  lemma AnyIsOneSegment(prefix: string, topic: string)
    requires WildcardFree(prefix)
    ensures Matches(prefix + ".*", topic) <==> exists seg :: '.' !in seg && topic == prefix + "." + seg
  {
    var pat, top := Split(prefix, '.'), Split(topic, '.');
    SplitAtom("*", '.');
    SplitConcat(prefix, '.', "*");
    assert prefix + ".*" == prefix + (['.'] + "*");
    OneMoreSegment(pat, top);
    if |top| == |pat| + 1 && pat <= top {
      var seg := top[|pat|];
      assert top == pat + [seg];
      JoinAppend(pat, [seg], '.');
      JoinSplit(prefix, '.');
      JoinSplit(topic, '.');
      SplitParts(topic, '.');
      assert '.' !in seg && topic == prefix + "." + seg;
    }
    if seg :| '.' !in seg && topic == prefix + "." + seg {
      SplitAtom(seg, '.');
      SplitConcat(prefix, '.', seg);
      assert topic == prefix + (['.'] + seg);
    }
  }

  lemma {:induction false} OneMoreSegment(pat: seq<string>, top: seq<string>)
    requires forall p :: p in pat ==> p != ANY && p != REST
    ensures MatchSegments(pat + [ANY], top) <==> |top| == |pat| + 1 && pat <= top
  {
    if pat == [] {
      assert (pat + [ANY])[1..] == [];
    } else {
      assert pat[0] in pat;
      assert (pat + [ANY])[1..] == pat[1..] + [ANY] && (pat + [ANY])[0] == pat[0];
      if top != [] {
        assert forall p :: p in pat[1..] ==> p in pat;
        OneMoreSegment(pat[1..], top[1..]);
        assert pat == [pat[0]] + pat[1..] && top == [top[0]] + top[1..];
      }
    }
  }

  lemma SharedSegmentsSharePrefix(prefix: string, topic: string)
    requires var pat, top := Split(prefix, '.'), Split(topic, '.'); |top| > |pat| && pat <= top
    ensures prefix + "." <= topic
  {
    var pat, top := Split(prefix, '.'), Split(topic, '.');
    assert top == pat + top[|pat|..];
    JoinAppend(pat, top[|pat|..], '.');
    JoinSplit(prefix, '.');
    JoinSplit(topic, '.');
    assert topic == (prefix + ".") + Join(top[|pat|..], '.');
  }

  lemma {:induction false} JoinAppend(p: seq<string>, q: seq<string>, sep: char)
    requires |p| >= 1 && |q| >= 1
    ensures Join(p + q, sep) == Join(p, sep) + [sep] + Join(q, sep)
  {
    assert (p + q)[1..] == p[1..] + q;
    if |p| == 1 {
      assert p[1..] + q == q;
    } else {
      JoinAppend(p[1..], q, sep);
      var j := Join(p[1..], sep);
      assert p[0] + [sep] + (j + [sep] + Join(q, sep)) == (p[0] + [sep] + j) + [sep] + Join(q, sep);
    }
  }
}
