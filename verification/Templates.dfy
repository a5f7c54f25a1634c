/**
 Formula templates and step conditions (cmd/kd/formula_apply.go): the
 {{name}} substitution by regular expression, against an independent
 tokenisation, and the small condition language on top of it.
 */
module Templates {
  import opened Strings

  type Vars = map<string, string>

  // ------------------------------------------------------------ substitution

  /** \w of Go's regular expressions. */
  predicate IsWord(c: char) {
    'a' <= c <= 'z' || 'A' <= c <= 'Z' || '0' <= c <= '9' || c == '_'
  }

  predicate AllWord(name: string) {
    forall i :: 0 <= i < |name| ==> IsWord(name[i])
  }

  function WordRun(s: string): (n: nat)
    ensures n <= |s|
  {
    if s == [] || !IsWord(s[0]) then 0 else 1 + WordRun(s[1..])
  }

  /** The length of the match of {{\w+}} at the start of s, 0 when there is none. */
  function MatchLength(s: string): (m: nat)
    ensures m <= |s| && (m > 0 ==> m >= 5)
  {
    if |s| < 5 || s[0] != '{' || s[1] != '{' then 0
    else
      var n := WordRun(s[2..]);
      if n > 0 && n + 3 < |s| && s[n + 2] == '}' && s[n + 3] == '}' then n + 4 else 0
  }

  function Placeholder(name: string): string {
    "{{" + name + "}}"
  }

  lemma {:induction false} WordRunIs(s: string)
    ensures AllWord(s[..WordRun(s)])
    ensures WordRun(s) < |s| ==> !IsWord(s[WordRun(s)])
  {
    if s != [] && IsWord(s[0]) {
      WordRunIs(s[1..]);
      var n := WordRun(s[1..]);
      forall i | 0 <= i < n + 1 ensures IsWord(s[i]) {
        if i > 0 {
          assert s[i] == s[1..][..n][i - 1];
        }
      }
    }
  }

  /** A match is a placeholder. */
  lemma MatchShape(s: string)
    requires MatchLength(s) > 0
    ensures var m := MatchLength(s); s[..m] == Placeholder(s[2..m - 2]) && AllWord(s[2..m - 2])
  {
    WordRunIs(s[2..]);
    var n := WordRun(s[2..]);
    assert s[2..][..n] == s[2..n + 2];
    assert s[..n + 4] == "{{" + s[2..n + 2] + "}}";
  }

  datatype Match = NoMatch | Match(before: string, name: string, after: string)

  /** The leftmost match: what precedes it, its name, what follows it. */
  function Leftmost(s: string): (r: Match)
    ensures r.Match? ==> |r.after| < |s|
  {
    if s == [] then NoMatch
    else
      var m := MatchLength(s);
      if m > 0 then Match("", s[2..m - 2], s[m..])
      else
        var r := Leftmost(s[1..]);
        if r.NoMatch? then NoMatch else r.(before := [s[0]] + r.before)
  }

  function Resolve(name: string, vars: Vars): string {
    if name in vars then vars[name] else Placeholder(name)
  }

  /** substituteVars: replace the leftmost match, go on after it. */
  function SubstituteVars(s: string, vars: Vars): string
    decreases |s|
  {
    match Leftmost(s)
    case NoMatch => s
    case Match(before, name, after) => before + Resolve(name, vars) + SubstituteVars(after, vars)
  }

  // -------------------------------------------------- an independent reading

  datatype Token = Lit(c: char) | Var(name: string)

  function Written(t: Token): string {
    match t
    case Lit(c) => [c]
    case Var(name) => Placeholder(name)
  }

  function Unparse(ts: seq<Token>): string {
    if ts == [] then "" else Written(ts[0]) + Unparse(ts[1..])
  }

  /** A token list that writes s, whose variables are names, and that leaves no placeholder spelled out. */
  ghost predicate Reads(ts: seq<Token>, s: string) {
    && Unparse(ts) == s
    && (forall k :: 0 <= k < |ts| && ts[k].Var? ==> ts[k].name != "" && AllWord(ts[k].name))
    && (forall k :: 0 <= k < |ts| && ts[k].Lit? ==> MatchLength(Unparse(ts[k..])) == 0)
  }

  function Tokens(s: string): seq<Token> {
    if s == [] then []
    else
      var m := MatchLength(s);
      if m > 0 then [Var(s[2..m - 2])] + Tokens(s[m..]) else [Lit(s[0])] + Tokens(s[1..])
  }

  function Render(ts: seq<Token>, vars: Vars): string {
    if ts == [] then ""
    else (if ts[0].Var? then Resolve(ts[0].name, vars) else [ts[0].c]) + Render(ts[1..], vars)
  }

  /** A match is found wherever a placeholder is written. */
  lemma PlaceholderMatches(name: string, rest: string)
    requires name != "" && AllWord(name)
    ensures MatchLength(Placeholder(name) + rest) == |name| + 4
  {
    var s, n := Placeholder(name) + rest, |name|;
    assert s[2..] == name + ("}}" + rest);
    RunIs(s[2..], n);
  }

  lemma {:induction false} RunIs(s: string, n: nat)
    requires n < |s| && (forall i :: 0 <= i < n ==> IsWord(s[i])) && !IsWord(s[n])
    ensures WordRun(s) == n
  {
    if n > 0 {
      RunIs(s[1..], n - 1);
    }
  }

  /** The tokenisation reads the string. */
  lemma {:induction false} TokensRead(s: string)
    ensures Reads(Tokens(s), s)
    decreases |s|
  {
    if s != [] {
      var m := MatchLength(s);
      if m > 0 {
        TokensRead(s[m..]);
        MatchSplits(s);
        ReadsCons(Var(s[2..m - 2]), Tokens(s[m..]), s[m..]);
      } else {
        TokensRead(s[1..]);
        assert s == [s[0]] + s[1..];
        ReadsCons(Lit(s[0]), Tokens(s[1..]), s[1..]);
      }
    }
  }

  lemma MatchSplits(s: string)
    requires MatchLength(s) > 0
    ensures var m := MatchLength(s);
            s == Written(Var(s[2..m - 2])) + s[m..] && s[2..m - 2] != "" && AllWord(s[2..m - 2])
  {
    MatchShape(s);
    var m := MatchLength(s);
    assert s == s[..m] + s[m..];
  }

  lemma ReadsCons(t: Token, ts: seq<Token>, rest: string)
    requires Reads(ts, rest)
    requires t.Var? ==> t.name != "" && AllWord(t.name)
    requires t.Lit? ==> MatchLength(Written(t) + rest) == 0
    ensures Reads([t] + ts, Written(t) + rest)
  {
    var us := [t] + ts;
    assert us[1..] == ts && us[0..] == us;
    forall k | 1 <= k < |us| ensures us[k..] == ts[k - 1..] && us[k] == ts[k - 1] {}
  }

  /** It is the only one that does. */
  lemma {:induction false} ReadingIsUnique(ts: seq<Token>, s: string)
    requires Reads(ts, s)
    ensures ts == Tokens(s)
    decreases |ts|
  {
    if ts != [] {
      var rest := Unparse(ts[1..]);
      ReadsTail(ts);
      ReadingIsUnique(ts[1..], rest);
      assert ts[0..] == ts;
      FirstToken(ts[0], rest);
      assert ts == [ts[0]] + ts[1..];
    }
  }

  lemma ReadsTail(ts: seq<Token>)
    requires ts != [] && Reads(ts, Unparse(ts))
    ensures Reads(ts[1..], Unparse(ts[1..]))
  {
    forall k | 0 <= k < |ts| - 1 ensures ts[1..][k..] == ts[k + 1..] && ts[1..][k] == ts[k + 1] {}
  }

  lemma FirstToken(t: Token, rest: string)
    requires t.Var? ==> t.name != "" && AllWord(t.name)
    requires t.Lit? ==> MatchLength(Written(t) + rest) == 0
    ensures Tokens(Written(t) + rest) == [t] + Tokens(rest)
  {
    var s, w := Written(t) + rest, |Written(t)|;
    assert s[w..] == rest;
    if t.Var? {
      PlaceholderMatches(t.name, rest);
      assert s[2..w - 2] == t.name;
    }
  }

  /**
   Leftmost, non-overlapping replacement is token by token: every value goes into
   the result as it is and is never looked at again.
   */
  lemma {:induction false} SubstituteIsRender(s: string, vars: Vars)
    ensures SubstituteVars(s, vars) == Render(Tokens(s), vars)
    decreases |s|
  {
    if s == [] {
    } else if MatchLength(s) > 0 {
      var m := MatchLength(s);
      SubstituteIsRender(s[m..], vars);
      MatchFirst(s, vars);
      RenderCons(Var(s[2..m - 2]), Tokens(s[m..]), vars);
    } else {
      SubstituteIsRender(s[1..], vars);
      LiteralFirst(s, vars);
      RenderCons(Lit(s[0]), Tokens(s[1..]), vars);
    }
  }

  lemma RenderCons(t: Token, ts: seq<Token>, vars: Vars)
    ensures Render([t] + ts, vars) == (if t.Var? then Resolve(t.name, vars) else [t.c]) + Render(ts, vars)
  {
    assert ([t] + ts)[1..] == ts;
  }

  /** A match at the start is resolved, and the rest follows. */
  lemma MatchFirst(s: string, vars: Vars)
    requires MatchLength(s) > 0
    ensures var m := MatchLength(s);
            SubstituteVars(s, vars) == Resolve(s[2..m - 2], vars) + SubstituteVars(s[m..], vars)
  {
    var m := MatchLength(s);
    assert Leftmost(s) == Match("", s[2..m - 2], s[m..]);
    assert "" + Resolve(s[2..m - 2], vars) == Resolve(s[2..m - 2], vars);
  }

  /** A character that starts no match is copied. */
  lemma LiteralFirst(s: string, vars: Vars)
    requires s != [] && MatchLength(s) == 0
    ensures SubstituteVars(s, vars) == [s[0]] + SubstituteVars(s[1..], vars)
  {
    match Leftmost(s[1..])
    case NoMatch =>
      assert s == [s[0]] + s[1..];
    case Match(before, name, after) =>
      Associates([s[0]], before, Resolve(name, vars), SubstituteVars(after, vars));
  }

  lemma Associates(a: string, b: string, c: string, d: string)
    ensures (a + b) + c + d == a + (b + c + d)
  {}

  /** Only the variables a template names matter. */
  lemma {:induction false} OnlyNamesMatter(ts: seq<Token>, vars: Vars, other: Vars)
    requires forall t :: t in ts && t.Var? ==> Resolve(t.name, vars) == Resolve(t.name, other)
    ensures Render(ts, vars) == Render(ts, other)
  {
    if ts != [] {
      OnlyNamesMatter(ts[1..], vars, other);
    }
  }

  /** A template none of whose variables is bound comes back unchanged. */
  lemma UnboundUntouched(s: string, vars: Vars)
    requires forall t :: t in Tokens(s) && t.Var? ==> t.name !in vars
    ensures SubstituteVars(s, vars) == s
  {
    SubstituteIsRender(s, vars);
    OnlyNamesMatter(Tokens(s), vars, map[]);
    RenderUnbound(Tokens(s));
    TokensRead(s);
  }

  lemma {:induction false} RenderUnbound(ts: seq<Token>)
    ensures Render(ts, map[]) == Unparse(ts)
  {
    if ts != [] {
      RenderUnbound(ts[1..]);
    }
  }

  /** What one placeholder on its own turns into. */
  lemma SubstituteOne(name: string, vars: Vars)
    requires name != "" && AllWord(name)
    ensures SubstituteVars(Placeholder(name), vars) == Resolve(name, vars)
    ensures Leftmost(Placeholder(name)).Match?
  {
    var s := Placeholder(name);
    PlaceholderMatches(name, "");
    assert s + "" == s;
    assert s[2..|s| - 2] == name && s[|s|..] == "";
    MatchFirst(s, vars);
  }

  /** The characters of a name. */
  predicate NameOf(name: string) {
    name != "" && forall c :: c in name ==> 'a' <= c <= 'z' || 'A' <= c <= 'Z' || '0' <= c <= '9' || c == '_'
  }

  lemma NameMatches(name: string, post: string, vars: Vars)
    requires NameOf(name)
    ensures SubstituteVars("{{" + name + "}}" + post, vars) ==
            (if name in vars then vars[name] else "{{" + name + "}}") + SubstituteVars(post, vars)
  {
    forall i | 0 <= i < |name| ensures IsWord(name[i]) {
      assert name[i] in name;
    }
    var s := "{{" + name + "}}" + post;
    PlaceholderMatches(name, post);
    MatchFirst(s, vars);
    assert s[2..|name| + 2] == name && s[|name| + 4..] == post;
  }

  lemma PlainFirst(pre: string, rest: string, vars: Vars)
    requires pre != "" && pre[0] != '{'
    ensures SubstituteVars(pre + rest, vars) == [pre[0]] + SubstituteVars(pre[1..] + rest, vars)
  {
    var s := pre + rest;
    assert s[0] == pre[0] && s[1..] == pre[1..] + rest;
    LiteralFirst(s, vars);
  }

  lemma Reattached(a: string, b: string)
    requires a != ""
    ensures [a[0]] + (a[1..] + b) == a + b
  {}

  /** Text without an opening brace is copied. */
  lemma {:induction false} PlainCopied(pre: string, rest: string, vars: Vars)
    requires '{' !in pre
    ensures SubstituteVars(pre + rest, vars) == pre + SubstituteVars(rest, vars)
  {
    if pre == [] {
      assert pre + rest == rest;
    } else {
      PlainFirst(pre, rest, vars);
      PlainCopied(pre[1..], rest, vars);
      Reattached(pre, SubstituteVars(rest, vars));
    }
  }

  /** A name in double braces is its value if it is bound; what stands before and after is treated apart. */
  lemma NameFilled(pre: string, name: string, post: string, vars: Vars)
    requires NameOf(name) && '{' !in pre
    ensures SubstituteVars(pre + ("{{" + name + "}}" + post), vars) ==
            pre + ((if name in vars then vars[name] else "{{" + name + "}}") + SubstituteVars(post, vars))
  {
    PlainCopied(pre, "{{" + name + "}}" + post, vars);
    NameMatches(name, post, vars);
  }

  /** Anything else in double braces stays as it is. */
  lemma OtherKept(text: string, vars: Vars)
    requires '{' !in text && !NameOf(text) && '}' !in text
    ensures SubstituteVars("{{" + text + "}}", vars) == "{{" + text + "}}"
  {
    var s := "{{" + text + "}}";
    NoMatchHere(text);
    LiteralFirst(s, vars);
    var t := "{" + text + "}}";
    assert s[1..] == t;
    assert text + "}}" == t[1..];
    assert |t| < 5 || t[1] != '{' by {
      if text != "" {
        assert t[1] == text[0] && text[0] in text;
      }
    }
    LiteralFirst(t, vars);
    BracelessIsLiteral(text + "}}", vars);
  }

  lemma NoMatchHere(text: string)
    requires '{' !in text && !NameOf(text) && '}' !in text
    ensures MatchLength("{{" + text + "}}") == 0
  {
    var s := "{{" + text + "}}";
    assert s[2..] == text + "}}";
    WordRunIs(text + "}}");
    var n := WordRun(text + "}}");
    if text != "" {
      var i :| 0 <= i < |text| && !('a' <= text[i] <= 'z' || 'A' <= text[i] <= 'Z' || '0' <= text[i] <= '9'
                                    || text[i] == '_');
      RunStops(text + "}}", i);
      assert s[n + 2] == text[n] && text[n] in text;
    }
  }

  /** Values are not rescanned: a value that spells a placeholder stays as it is. */
  lemma ValuesAreNotRescanned(a: string, b: string, x: string)
    requires a != "" && b != "" && a != b && AllWord(a) && AllWord(b)
    ensures SubstituteVars(Placeholder(a), map[a := Placeholder(b), b := x]) == Placeholder(b)
  {
    SubstituteOne(a, map[a := Placeholder(b), b := x]);
  }

  // -------------------------------------------------------------- conditions

  /** The first place in s of x followed by '='. */
  function IndexOp(s: string, x: char): (i: nat)
    ensures i <= |s|
    ensures i < |s| ==> OpAt(s, i, x)
    ensures forall k :: 0 <= k < i ==> !OpAt(s, k, x)
  {
    if s == [] || OpAt(s, 0, x) then 0
    else
      var i := IndexOp(s[1..], x);
      assert forall k :: 1 <= k < |s| ==> OpAt(s, k, x) == OpAt(s[1..], k - 1, x);
      1 + i
  }

  predicate OpAt(s: string, k: int, x: char) {
    0 <= k && k + 1 < |s| && s[k] == x && s[k + 1] == '='
  }

  predicate HasOp(s: string, x: char) {
    exists k :: 0 <= k < |s| && OpAt(s, k, x)
  }

  lemma TrimShrinks(s: string)
    ensures |TrimSpace(s)| <= |s|
  {
    var pre, post := TrimSpaceSplits(s);
  }

  predicate Falsy(v: string) {
    v == "" || v == "false" || v == "0"
  }

  /** evaluateCondition. It ends because trimming never grows a string and a negation sheds its sign. */
  predicate EvaluateCondition(cond: string, vars: Vars)
    decreases |cond|
  {
    TrimShrinks(cond);
    var c := TrimSpace(cond);
    if c != [] && c[0] == '!' then !EvaluateCondition(c[1..], vars)
    else if IndexOp(c, '!') < |c| then
      var i := IndexOp(c, '!');
      SubstituteVars(TrimSpace(c[..i]), vars) != TrimSpace(c[i + 2..])
    else if IndexOp(c, '=') < |c| then
      var i := IndexOp(c, '=');
      SubstituteVars(TrimSpace(c[..i]), vars) == TrimSpace(c[i + 2..])
    else
      var resolved := SubstituteVars(c, vars);
      if resolved != c then !Falsy(resolved)
      else if Leftmost(c).Match? then false
      else resolved != ""
  }

  /** White space around a string is invisible to trimming. */
  lemma TrimPadded(pre: string, s: string, post: string)
    requires AllSpace(pre) && AllSpace(post)
    ensures TrimSpace(pre + s + post) == TrimSpace(s)
  {
    var p, q := TrimSpaceSplits(s);
    assert pre + s + post == (pre + p) + TrimSpace(s) + (q + post);
    TrimSpaceIs(pre + p, TrimSpace(s), q + post);
  }

  /** A condition says what its trimmed form says. */
  lemma EvaluateTrimmed(cond: string, other: string, vars: Vars)
    requires TrimSpace(cond) == TrimSpace(other)
    ensures EvaluateCondition(cond, vars) == EvaluateCondition(other, vars)
  {}

  lemma TrimOnce(s: string)
    ensures TrimSpace(TrimLeft(s)) == TrimSpace(s)
  {
    var pre := TrimLeftSplits(s);
    assert pre + TrimLeft(s) + [] == s;
    TrimPadded(pre, TrimLeft(s), []);
  }

  lemma TrimOnceRight(s: string)
    ensures TrimSpace(TrimRight(s)) == TrimSpace(s)
  {
    var post := TrimRightSplits(s);
    assert [] + TrimRight(s) + post == s;
    TrimPadded([], TrimRight(s), post);
  }

  /** Trimming on the right cannot reach past a visible character. */
  lemma {:induction false} KeepsHead(c: char, s: string)
    requires !IsSpace(c)
    ensures TrimRight([c] + s) == [c] + TrimRight(s)
  {
    if s == [] {
      assert TrimRight([c]) == [c];
      assert [c] + s == [c];
    } else {
      var n := |s| - 1;
      assert ([c] + s)[|s|] == s[n];
      if IsSpace(s[n]) {
        KeepsHead(c, s[..n]);
        assert ([c] + s)[..|s|] == [c] + s[..n];
      }
    }
  }

  /** `!` negates whatever follows, any number of times. */
  lemma NegationNegates(cond: string, vars: Vars)
    ensures EvaluateCondition("!" + cond, vars) == !EvaluateCondition(cond, vars)
  {
    var c := "!" + TrimRight(cond);
    KeepsHead('!', cond);
    assert TrimLeft("!" + cond) == "!" + cond;
    assert TrimSpace("!" + cond) == c;
    assert c[1..] == TrimRight(cond);
    TrimOnceRight(cond);
    EvaluateTrimmed(c[1..], cond, vars);
  }

  ghost predicate FreeOf(l: string, x: char) {
    forall k :: !OpAt(l, k, x)
  }

  /**
   A left operand of x: not blank, not negated, and free of operators that would be
   found first. In front of `==` it must not end in a sign that joins the operator.
   */
  ghost predicate LeftOperand(a: string, x: char) {
    && FreeOf(a, '!') && TrimSpace(a) != "" && TrimSpace(a)[0] != '!'
    && (x == '=' ==> FreeOf(a, '=') && a != "" && a[|a| - 1] != '!' && a[|a| - 1] != '=')
  }

  lemma OperandTrims(a: string, x: char)
    requires LeftOperand(a, x)
    ensures LeftOperand(TrimLeft(a), x) && TrimLeft(a) != "" && TrimLeft(a)[0] != '!'
  {
    var pre := TrimLeftSplits(a);
    var t := TrimLeft(a);
    TrimOnce(a);
    assert t != "";
    assert t == [t[0]] + t[1..];
    KeepsHead(t[0], t[1..]);
    assert a[|a| - 1] == t[|t| - 1];
    FreeAtEnd(pre, t, '!');
    if x == '=' {
      FreeAtEnd(pre, t, '=');
    }
  }

  lemma FreeAtEnd(pre: string, t: string, x: char)
    requires FreeOf(pre + t, x)
    ensures FreeOf(t, x)
  {
    forall k ensures !OpAt(t, k, x) {
      assert !OpAt(pre + t, |pre| + k, x);
    }
  }

  lemma Regroup(pre: string, l: string, op: string, r: string, post: string)
    ensures (pre + l) + op + (r + post) == pre + (l + op + r) + post
  {}

  /** Trimming a comparison trims its ends. */
  lemma TrimAround(a: string, x: char, b: string)
    requires x == '!' || x == '='
    ensures TrimSpace(a + [x, '='] + b) == TrimLeft(a) + [x, '='] + TrimRight(b)
  {
    var pre := TrimLeftSplits(a);
    var post := TrimRightSplits(b);
    var mid := TrimLeft(a) + [x, '='] + TrimRight(b);
    Regroup(pre, TrimLeft(a), [x, '='], TrimRight(b), post);
    TrimSpaceIs(pre, mid, post);
  }

  /** The operator written between the operands is the first one of its kind. */
  lemma OpComesFirst(l: string, x: char, r: string)
    requires FreeOf(l, x) && (x == '!' || (x == '=' && l != "" && l[|l| - 1] != '='))
    ensures IndexOp(l + [x, '='] + r, x) == |l|
  {
    var c := l + [x, '='] + r;
    assert OpAt(c, |l|, x);
    forall k | 0 <= k < |l| ensures !OpAt(c, k, x) {
      assert !OpAt(l, k, x);
    }
  }

  lemma NoInequality(l: string, r: string)
    requires FreeOf(l, '!') && l != "" && l[|l| - 1] != '!' && !HasOp(r, '!')
    ensures IndexOp(l + "==" + r, '!') == |l + "==" + r|
  {
    var c := l + "==" + r;
    forall k | 0 <= k < |c| ensures !OpAt(c, k, '!') {
      assert !OpAt(l, k, '!');
      assert OpAt(r, k - |l| - 2, '!') ==> HasOp(r, '!');
    }
  }

  lemma TrimKeepsAbsence(b: string)
    requires !HasOp(b, '!')
    ensures !HasOp(TrimRight(b), '!')
  {
    var post := TrimRightSplits(b);
    forall k | 0 <= k < |TrimRight(b)| ensures !OpAt(TrimRight(b), k, '!') {
      assert !OpAt(b, k, '!');
    }
  }

  /** Left side substituted, right side as written. */
  predicate Differ(a: string, b: string, vars: Vars) {
    SubstituteVars(TrimSpace(a), vars) != TrimSpace(b)
  }

  lemma ComparisonForm(a: string, x: char, b: string, vars: Vars)
    requires LeftOperand(a, x) && (x == '!' || (x == '=' && !HasOp(b, '!')))
    ensures EvaluateCondition(a + [x, '='] + b, vars) <==> (Differ(a, b, vars) <==> x == '!')
  {
    var l, r := TrimLeft(a), TrimRight(b);
    var c := l + [x, '='] + r;
    TrimAround(a, x, b);
    OperandTrims(a, x);
    OpComesFirst(l, x, r);
    assert c[0] == l[0];
    assert c[..|l|] == l && c[|l| + 2..] == r;
    TrimOnce(a);
    TrimOnceRight(b);
    if x == '=' {
      TrimKeepsAbsence(b);
      NoInequality(l, r);
    }
  }

  /**
   What the `==` form means when a `!=` follows anywhere: an inequality, whose left
   side is all that precedes that operator.
   */
  lemma EqualityShadowed(a: string, b: string, vars: Vars)
    requires LeftOperand(a, '=') && HasOp(b, '!')
    ensures var k := IndexOp(b, '!');
            k < |b| && (EvaluateCondition(a + "==" + b, vars) <==> Differ(a + "==" + b[..k], b[k + 2..], vars))
  {
    var k := IndexOp(b, '!');
    var l := a + "==" + b[..k];
    forall j ensures !OpAt(l, j, '!') {
      assert !OpAt(a, j, '!');
      if |a| + 2 <= j {
        assert OpAt(l, j, '!') ==> OpAt(b, j - |a| - 2, '!');
      }
    }
    OperandTrims(a, '=');
    TrimAround(a, '=', b[..k]);
    assert TrimSpace(l)[0] == TrimLeft(a)[0];
    assert b == b[..k] + "!=" + b[k + 2..];
    assert a + "==" + b == l + "!=" + b[k + 2..];
    ComparisonForm(l, '!', b[k + 2..], vars);
  }

  /** What the two comparison forms mean, for every right side. */
  lemma Comparison(a: string, b: string, vars: Vars)
    requires LeftOperand(a, '=')
    ensures EvaluateCondition(a + "!=" + b, vars) <==> SubstituteVars(TrimSpace(a), vars) != TrimSpace(b)
    ensures EvaluateCondition(a + "==" + b, vars) <==>
            if HasOp(b, '!') then Differ(a + "==" + b[..IndexOp(b, '!')], b[IndexOp(b, '!') + 2..], vars)
            else SubstituteVars(TrimSpace(a), vars) == TrimSpace(b)
  {
    ComparisonForm(a, '!', b, vars);
    if HasOp(b, '!') {
      EqualityShadowed(a, b, vars);
    } else {
      ComparisonForm(a, '=', b, vars);
    }
  }

  // -------------------------------------- when the two forms are complements

  lemma {:induction false} WordRunLocal(s: string, rest: string)
    requires WordRun(s) < |s|
    ensures WordRun(s + rest) == WordRun(s)
  {
    if IsWord(s[0]) {
      assert (s + rest)[1..] == s[1..] + rest;
      WordRunLocal(s[1..], rest);
    }
  }

  lemma {:induction false} RunStops(s: string, p: nat)
    requires p < |s| && !IsWord(s[p])
    ensures WordRun(s) <= p
  {
    if p > 0 {
      RunStops(s[1..], p - 1);
    }
  }

  /** Where the leftmost match begins. */
  lemma {:induction false} MatchStarts(s: string) returns (j: nat)
    requires Leftmost(s).Match?
    ensures j + 5 <= |s| && s[j] == '{' && s[j + 1] == '{'
  {
    if MatchLength(s) > 0 {
      j := 0;
    } else {
      var i := MatchStarts(s[1..]);
      j := i + 1;
    }
  }

  /** Text after a match decides nothing about what stands before it. */
  lemma MatchLocal(s: string, rest: string)
    requires MatchLength(s) > 0 || (s != [] && Leftmost(s[1..]).Match?)
    ensures MatchLength(s + rest) == MatchLength(s)
  {
    if |s| >= 5 && s[0] == '{' && s[1] == '{' {
      var n := WordRun(s[2..]);
      if MatchLength(s) == 0 {
        var j := MatchStarts(s[1..]);
        RunStops(s[2..], if j == 0 then 0 else j - 1);
      }
      assert n + 3 < |s|;
      WordRunLocal(s[2..], rest);
      assert (s + rest)[2..] == s[2..] + rest;
    } else if s != [] && Leftmost(s[1..]).Match? {
      var j := MatchStarts(s[1..]);
      assert (s + rest)[0] == s[0] && (s + rest)[1] == s[1];
    }
  }

  lemma {:induction false} LeftmostExtends(s: string, rest: string)
    requires Leftmost(s).Match?
    ensures Leftmost(s + rest) == Leftmost(s).(after := Leftmost(s).after + rest)
  {
    MatchLocal(s, rest);
    var m := MatchLength(s);
    if m > 0 {
      assert (s + rest)[2..m - 2] == s[2..m - 2] && (s + rest)[m..] == s[m..] + rest;
    } else {
      assert (s + rest)[1..] == s[1..] + rest && (s + rest)[0] == s[0];
      LeftmostExtends(s[1..], rest);
    }
  }

  /** The variable that a text names first. */
  function FirstName(s: string): string
    requires Leftmost(s).Match?
  {
    Leftmost(s).name
  }

  /** A text is at least as long, substituted, as the value of a variable it names first. */
  lemma SubstituteGrows(s: string, rest: string, vars: Vars)
    requires Leftmost(s).Match? && FirstName(s) in vars
    ensures |SubstituteVars(s + rest, vars)| >= |vars[FirstName(s)]|
  {
    LeftmostExtends(s, rest);
  }

  /** A left operand with a variable in it differs from anything shorter than that variable's value. */
  lemma LongDiffers(a: string, tail: string, q: string, vars: Vars)
    requires Leftmost(TrimSpace(a)).Match? && FirstName(TrimSpace(a)) in vars
    requires |vars[FirstName(TrimSpace(a))]| > |q|
    ensures Differ(a, q, vars) && Differ(a + "==" + tail, q, vars)
  {
    var t := TrimSpace(a);
    TrimShrinks(q);
    assert t + "" == t;
    SubstituteGrows(t, "", vars);
    var rest := TrimmedBefore(a, tail);
    SubstituteGrows(t, rest, vars);
  }

  /** Trimmed, a comparison begins with its trimmed left side. */
  lemma TrimmedBefore(a: string, tail: string) returns (rest: string)
    ensures TrimSpace(a + "==" + tail) == TrimSpace(a) + rest
  {
    var post := TrimRightSplits(TrimLeft(a));
    rest := post + "==" + TrimRight(tail);
    TrimAround(a, '=', tail);
  }

  /** With a `!=` anywhere on the right both forms hold at once, once the variable on the left has a longer value. */
  lemma OperatorInValue(a: string, b: string, vars: Vars)
    requires LeftOperand(a, '=') && Leftmost(TrimSpace(a)).Match? && HasOp(b, '!')
    requires FirstName(TrimSpace(a)) in vars && |vars[FirstName(TrimSpace(a))]| > |b|
    ensures EvaluateCondition(a + "!=" + b, vars) && EvaluateCondition(a + "==" + b, vars)
  {
    var k := IndexOp(b, '!');
    Comparison(a, b, vars);
    EqualityShadowed(a, b, vars);
    LongDiffers(a, "", b, vars);
    LongDiffers(a, b[..k], b[k + 2..], vars);
  }

  /** Of the two forms exactly one holds. */
  predicate Complements(a: string, b: string, vars: Vars) {
    EvaluateCondition(a + "==" + b, vars) == !EvaluateCondition(a + "!=" + b, vars)
  }

  /**
   Exactly when the two forms are complements, whatever the variables, for a left
   side with a variable in it: when the right side holds no `!=`.
   */
  lemma ComplementsIff(a: string, b: string)
    requires LeftOperand(a, '=') && Leftmost(TrimSpace(a)).Match?
    ensures (forall vars: Vars :: Complements(a, b, vars)) <==> !HasOp(b, '!')
  {
    if HasOp(b, '!') {
      var vars: Vars := map[FirstName(TrimSpace(a)) := b + "x"];
      OperatorInValue(a, b, vars);
      assert !Complements(a, b, vars);
    } else {
      forall vars: Vars ensures Complements(a, b, vars) {
        Comparison(a, b, vars);
      }
    }
  }

  /** A placeholder, with space around it, is an operand. */
  lemma PlaceholderOperand(name: string, pre: string, post: string)
    requires name != "" && AllWord(name) && AllSpace(pre) && AllSpace(post)
    ensures LeftOperand(pre + Placeholder(name) + post, '=') &&
        TrimSpace(pre + Placeholder(name) + post) == Placeholder(name)
  {
    var a := pre + Placeholder(name) + post;
    TrimSpaceIs(pre, Placeholder(name), post);
    assert forall i :: 0 <= i < |pre| ==> pre[i] in pre;
    assert forall i :: 0 <= i < |post| ==> post[i] in post;
    assert forall i :: 0 <= i < |a| ==> a[i] != '!' && a[i] != '=';
  }

  /** `{{name}} != value` means what it says. */
  predicate SaysDiffers(name: string, pad: string, value: string, vars: Vars) {
    EvaluateCondition(Placeholder(name) + pad + "!=" + value, vars) <==> Resolve(name, vars) != TrimSpace(value)
  }

  /** `{{name}} == value` means what it says. */
  predicate SaysEqual(name: string, pad: string, value: string, vars: Vars) {
    EvaluateCondition(Placeholder(name) + pad + "==" + value, vars) <==> Resolve(name, vars) == TrimSpace(value)
  }

  /**
   A variable compared with a value, as the help text has it: `{{name}} != value`
   always means what it says, `{{name}} == value` means equality for all variables
   exactly when there is no `!=` in the value.
   */
  lemma ComparesVariable(name: string, pad: string, value: string)
    requires name != "" && AllWord(name) && AllSpace(pad)
    ensures forall vars: Vars :: SaysDiffers(name, pad, value, vars)
    ensures (forall vars: Vars :: SaysEqual(name, pad, value, vars)) <==> !HasOp(value, '!')
  {
    var a := Placeholder(name) + pad;
    PlaceholderOperand(name, [], pad);
    assert [] + Placeholder(name) + pad == a;
    SubstituteOne(name, map[]);
    forall vars: Vars
      ensures SaysDiffers(name, pad, value, vars)
      ensures SaysEqual(name, pad, value, vars) <==> Complements(a, value, vars)
    {
      SubstituteOne(name, vars);
      Comparison(a, value, vars);
    }
    ComplementsIff(a, value);
  }

  /**
   A bare variable holds unless it is unbound, bound to one of the false values,
   or bound to its own placeholder.
   */
  lemma BareVariable(name: string, vars: Vars)
    requires name != "" && AllWord(name)
    ensures EvaluateCondition("{{" + name + "}}", vars) <==>
            && name in vars && vars[name] != "" && vars[name] != "false" && vars[name] != "0"
            && vars[name] != "{{" + name + "}}"
  {
    var c := Placeholder(name);
    PlaceholderOperand(name, [], []);
    assert [] + c + [] == c;
    SubstituteOne(name, vars);
    NoOps(c);
  }

  lemma NoOps(c: string)
    requires !HasOp(c, '!') && !HasOp(c, '=')
    ensures IndexOp(c, '!') == |c| && IndexOp(c, '=') == |c|
  {}

  /** Nothing matches in a text without an opening brace. */
  lemma {:induction false} BracelessIsLiteral(s: string, vars: Vars)
    requires '{' !in s
    ensures Leftmost(s).NoMatch? && SubstituteVars(s, vars) == s
  {
    if s != [] {
      assert s[0] != '{';
      BracelessIsLiteral(s[1..], vars);
    }
  }

  /** Plain text, without braces or operator signs, holds unless it is blank: even "false" and "0" hold. */
  lemma LiteralHolds(cond: string, vars: Vars)
    requires '{' !in cond && '!' !in cond && '=' !in cond
    ensures EvaluateCondition(cond, vars) <==> !AllSpace(cond)
  {
    var c := TrimSpace(cond);
    var pre, post := TrimSpaceSplits(cond);
    assert forall x :: x in cond <==> x in pre || x in c || x in post;
    NoOps(c);
    BracelessIsLiteral(c, vars);
    if c != [] {
      assert c[0] in c;
    }
  }
}
