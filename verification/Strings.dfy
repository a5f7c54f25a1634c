/**
 The parts of Go's string library that the work tracker leans on: splitting at
 a separator, joining, and trimming white space.
 */
module Strings {

  /** strings.Split for a one-character separator; the result is never empty. */
  function Split(s: string, sep: char): (parts: seq<string>)
    ensures |parts| >= 1
  {
    if s == [] then [""] else Push(s[0], sep, Split(s[1..], sep))
  }

  /** The parts of a string with one more character in front. */
  function Push(c: char, sep: char, parts: seq<string>): (r: seq<string>)
    requires |parts| >= 1
    ensures |r| >= 1
  {
    if c == sep then [""] + parts else [[c] + parts[0]] + parts[1..]
  }

  /** strings.Join for a one-character separator. */
  function Join(parts: seq<string>, sep: char): string
    requires |parts| >= 1
  {
    if |parts| == 1 then parts[0] else parts[0] + [sep] + Join(parts[1..], sep)
  }

  /** Splitting loses nothing: joining the parts gives the string back. */
  lemma {:induction false} JoinSplit(s: string, sep: char)
    ensures Join(Split(s, sep), sep) == s
  {
    if s != [] {
      JoinSplit(s[1..], sep);
      JoinPush(s[0], sep, Split(s[1..], sep));
      assert s == [s[0]] + s[1..];
    }
  }

  lemma JoinPush(c: char, sep: char, parts: seq<string>)
    requires |parts| >= 1
    ensures Join(Push(c, sep, parts), sep) == [c] + Join(parts, sep)
  {
    var r := Push(c, sep, parts);
    if c == sep {
      assert r[1..] == parts && r[0] == "";
      assert Join(r, sep) == "" + [sep] + Join(parts, sep);
    } else if |parts| > 1 {
      assert r[1..] == parts[1..] && r[0] == [c] + parts[0];
    }
  }

  /** No part holds the separator. */
  lemma {:induction false} SplitParts(s: string, sep: char)
    ensures forall p :: p in Split(s, sep) ==> sep !in p
  {
    if s != [] {
      SplitParts(s[1..], sep);
      var rest := Split(s[1..], sep);
      forall p | p in Split(s, sep) ensures sep !in p {
        if s[0] == sep {
          assert p == "" || p in rest;
        } else {
          assert p == [s[0]] + rest[0] || p in rest[1..];
          assert rest[0] in rest;
        }
      }
    }
  }

  /** A string without the separator is its own only part. */
  lemma {:induction false} SplitAtom(s: string, sep: char)
    requires sep !in s
    ensures Split(s, sep) == [s]
  {
    if s != [] {
      SplitAtom(s[1..], sep);
      assert s == [s[0]] + s[1..];
    }
  }

  /** Splitting distributes over a separator. */
  lemma {:induction false} SplitConcat(a: string, sep: char, b: string)
    ensures Split(a + ([sep] + b), sep) == Split(a, sep) + Split(b, sep)
  {
    var tail := [sep] + b;
    if a == [] {
      assert a + tail == tail && tail[1..] == b;
    } else {
      SplitConcat(a[1..], sep, b);
      assert (a + tail)[1..] == a[1..] + tail && (a + tail)[0] == a[0];
      PushConcat(a[0], sep, Split(a[1..], sep), Split(b, sep));
    }
  }

  lemma PushConcat(c: char, sep: char, p: seq<string>, q: seq<string>)
    requires |p| >= 1
    ensures Push(c, sep, p + q) == Push(c, sep, p) + q
  {
    if c != sep {
      assert (p + q)[1..] == p[1..] + q;
    }
  }

  /** The first place of a character, the length when there is none. */
  function IndexOf(s: string, c: char): (i: nat)
    ensures i <= |s|
    ensures forall k :: 0 <= k < i ==> s[k] != c
    ensures i < |s| ==> s[i] == c
  {
    if s == [] || s[0] == c then 0 else 1 + IndexOf(s[1..], c)
  }

  /** unicode.IsSpace: the characters with the White_Space property. */
  predicate IsSpace(c: char) {
    var n := c as int;
    || 0x09 <= n <= 0x0D || n == 0x20 || n == 0x85 || n == 0xA0 || n == 0x1680
    || 0x2000 <= n <= 0x200A || n == 0x2028 || n == 0x2029 || n == 0x202F
    || n == 0x205F || n == 0x3000
  }

  function TrimLeft(s: string): string {
    if s != [] && IsSpace(s[0]) then TrimLeft(s[1..]) else s
  }

  function TrimRight(s: string): string {
    if s != [] && IsSpace(s[|s| - 1]) then TrimRight(s[..|s| - 1]) else s
  }

  /** strings.TrimSpace. */
  function TrimSpace(s: string): string {
    TrimRight(TrimLeft(s))
  }

  /** What trimming leaves alone. */
  predicate Trimmed(s: string) {
    s == [] || (!IsSpace(s[0]) && !IsSpace(s[|s| - 1]))
  }

  predicate AllSpace(s: string) {
    forall c :: c in s ==> IsSpace(c)
  }

  lemma {:induction false} TrimLeftSplits(s: string) returns (pre: string)
    ensures s == pre + TrimLeft(s)
    ensures AllSpace(pre)
    ensures TrimLeft(s) == [] || !IsSpace(TrimLeft(s)[0])
  {
    if s != [] && IsSpace(s[0]) {
      var p := TrimLeftSplits(s[1..]);
      pre := [s[0]] + p;
      assert s == [s[0]] + s[1..];
    } else {
      pre := [];
    }
  }

  lemma {:induction false} TrimRightSplits(s: string) returns (post: string)
    ensures s == TrimRight(s) + post
    ensures AllSpace(post)
    ensures TrimRight(s) == [] || !IsSpace(TrimRight(s)[|TrimRight(s)| - 1])
  {
    if s != [] && IsSpace(s[|s| - 1]) {
      var p := TrimRightSplits(s[..|s| - 1]);
      post := p + [s[|s| - 1]];
      assert s == s[..|s| - 1] + [s[|s| - 1]];
    } else {
      post := [];
    }
  }

  lemma {:induction false} TrimLeftPrefix(pre: string, s: string)
    requires AllSpace(pre)
    ensures TrimLeft(pre + s) == TrimLeft(s)
  {
    if pre == [] {
      assert pre + s == s;
    } else {
      assert pre[0] in pre;
      assert (pre + s)[1..] == pre[1..] + s;
      TrimLeftPrefix(pre[1..], s);
    }
  }

  lemma {:induction false} TrimRightSuffix(s: string, post: string)
    requires AllSpace(post)
    ensures TrimRight(s + post) == TrimRight(s)
  {
    if post == [] {
      assert s + post == s;
    } else {
      var n := |post| - 1;
      assert post[n] in post;
      assert (s + post)[..|s + post| - 1] == s + post[..n];
      TrimRightSuffix(s, post[..n]);
    }
  }

  /** TrimSpace removes white space from both ends and nothing else. */
  lemma TrimSpaceIs(pre: string, mid: string, post: string)
    requires AllSpace(pre) && AllSpace(post) && Trimmed(mid)
    ensures TrimSpace(pre + mid + post) == mid
  {
    assert pre + mid + post == pre + (mid + post);
    TrimLeftPrefix(pre, mid + post);
    if mid == [] {
      assert mid + post == post + [];
      TrimLeftPrefix(post, []);
    } else {
      TrimRightSuffix(mid, post);
    }
  }

  /** Every string is white space around its trimmed form. */
  lemma TrimSpaceSplits(s: string) returns (pre: string, post: string)
    ensures s == pre + TrimSpace(s) + post
    ensures AllSpace(pre) && AllSpace(post) && Trimmed(TrimSpace(s))
  {
    pre := TrimLeftSplits(s);
    post := TrimRightSplits(TrimLeft(s));
    assert s == pre + (TrimSpace(s) + post);
    if TrimSpace(s) != [] {
      assert TrimLeft(s)[0] == TrimSpace(s)[0];
    }
  }

  /** The code points that unicode.IsSpace accepts. */
  const WHITE_SPACE := [
    0x09, 0x0A, 0x0B, 0x0C, 0x0D, 0x20, 0x85, 0xA0, 0x1680, 0x2000, 0x2001, 0x2002, 0x2003, 0x2004, 0x2005,
    0x2006, 0x2007, 0x2008, 0x2009, 0x200A, 0x2028, 0x2029, 0x202F, 0x205F, 0x3000]

  /** Trimming takes off both ends exactly the characters on that list. */
  lemma TrimSpaceMeans(s: string) returns (pre: string, post: string)
    ensures s == pre + TrimSpace(s) + post
    ensures forall c :: c in pre || c in post ==> c as int in WHITE_SPACE
    ensures TrimSpace(s) != "" ==>
              TrimSpace(s)[0] as int !in WHITE_SPACE && TrimSpace(s)[|TrimSpace(s)| - 1] as int !in WHITE_SPACE
  {
    pre, post := TrimSpaceSplits(s);
    forall c: char ensures IsSpace(c) <==> c as int in WHITE_SPACE {
      ListedSpace(c);
    }
  }

  lemma ListedSpace(c: char)
    ensures IsSpace(c) <==> c as int in WHITE_SPACE
  {
    var n := c as int;
    if IsSpace(c) {
      var i := if n <= 0x0D then n - 0x09 else if n <= 0x1680 then
                 (if n == 0x20 then 5 else if n == 0x85 then 6 else if n == 0xA0 then 7 else 8)
               else if n <= 0x200A then n - 0x2000 + 9
               else if n == 0x2028 then 20 else if n == 0x2029 then 21 else if n == 0x202F then 22
               else if n == 0x205F then 23 else 24;
      assert WHITE_SPACE[i] == n;
    }
  }
}
