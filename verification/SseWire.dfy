/**
 The server-sent event wire format. The server writes frames and keepalive
 comments (internal/server/sse.go, http_bus_sse.go); a client splits the byte
 stream into lines and assembles events (internal/eventbus/sse_client.go).

 The client is not the parser of the WHATWG HTML Living Standard (sections 9.2.5
 and 9.2.6): it keeps a leading space of data, forgets the id after every event
 and honours a last line that has no line end. It is modelled as it is.
 */
module SseWire {
  import opened Strings

  const LF: char := '\n'
  const CR: char := '\r'

  // ------------------------------------------------------------- numbers

  function Digit(d: nat): char
    requires d < 10
  {
    (d + '0' as int) as char
  }

  predicate AllDigits(s: string) {
    forall i :: 0 <= i < |s| ==> '0' <= s[i] <= '9'
  }

  /** %d */
  function Decimal(n: nat): (s: string)
    ensures |s| > 0 && AllDigits(s)
  {
    if n < 10 then [Digit(n)] else Decimal(n / 10) + [Digit(n % 10)]
  }

  /** The value of a Last-Event-ID made of digits (strconv.ParseUint without its 64-bit bound). */
  function ParseDecimal(s: string): nat
    requires AllDigits(s)
  {
    if s == [] then 0
    else ParseDecimal(s[..|s| - 1]) * 10 + (s[|s| - 1] as int - '0' as int)
  }

  /** The id a client was sent and sends back as Last-Event-ID is read as the same number. */
  lemma {:induction false} DecimalRoundTrip(n: nat)
    ensures ParseDecimal(Decimal(n)) == n
  {
    if n >= 10 {
      DecimalRoundTrip(n / 10);
      var s := Decimal(n);
      assert s[..|s| - 1] == Decimal(n / 10);
    }
  }

  /** Ids are printed without leading zeros. */
  lemma {:induction false} DecimalPlain(n: nat)
    ensures Decimal(0) == "0" && (n > 0 ==> Decimal(n)[0] != '0')
  {
    if n >= 10 {
      DecimalPlain(n / 10);
    }
  }

  // ------------------------------------------------------------- writing

  /** What the server sends: an event frame, or a keepalive comment. */
  datatype Item = Frame(id: nat, name: string, data: string) | Keepalive

  function Render(it: Item): string {
    match it
    case Frame(id, name, data) =>
      ("id:" + Decimal(id)) + [LF] + (("event:" + name) + [LF] + (("data:" + data) + [LF] + [LF]))
    case Keepalive => ":keepalive" + [LF] + [LF]
  }

  lemma FrameText(id: nat, name: string, data: string)
    ensures Render(Frame(id, name, data)) ==
            "id:" + Decimal(id) + "\n" + ("event:" + name + "\n" + ("data:" + data + "\n" + "\n"))
    ensures Render(Keepalive) == ":keepalive" + "\n" + "\n"
  {}

  function RenderAll(items: seq<Item>): string {
    if items == [] then "" else Render(items[0]) + RenderAll(items[1..])
  }

  // ------------------------------------------------------------- reading

  /** bufio.ScanLines drops one carriage return at the end of a line. */
  function DropCR(line: string): string {
    if line != [] && line[|line| - 1] == CR then line[..|line| - 1] else line
  }

  /** The lines the scanner yields; text after the last line end is a line if there is any. */
  function Lines(s: string): seq<string>
    decreases |s|
  {
    if s == [] then []
    else
      var i := IndexOf(s, LF);
      [DropCR(s[..i])] + (if i == |s| then [] else Lines(s[i + 1..]))
  }

  datatype Event = Event(id: string, name: string, data: string)

  /** The fields gathered since the last blank line. */
  datatype Partial = Partial(id: string, event: string, data: string)

  const CLEAN := Partial("", "", "")

  /** What one line that is not blank does. */
  function Field(p: Partial, line: string): Partial {
    if "id:" <= line then p.(id := TrimSpace(line[3..]))
    else if "event:" <= line then p.(event := TrimSpace(line[6..]))
    else if "data:" <= line then
      p.(data := if p.data != "" then p.data + [LF] + line[5..] else line[5..])
    else p
  }

  /** The events dispatched for a list of lines. `ok` says which data is a decodable payload. */
  function Dispatched(p: Partial, lines: seq<string>, ok: string -> bool): seq<Event>
    decreases |lines|
  {
    if lines == [] then []
    else if lines[0] == "" then
      (if p.data != "" && ok(p.data) then [Event(p.id, p.event, p.data)] else [])
        + Dispatched(CLEAN, lines[1..], ok)
    else Dispatched(Field(p, lines[0]), lines[1..], ok)
  }

  function Parse(s: string, ok: string -> bool): seq<Event> {
    Dispatched(CLEAN, Lines(s), ok)
  }

  /** The scan loop of ConnectBusSSE. */
  method ReadEvents(input: string, ok: string -> bool) returns (events: seq<Event>)
    ensures events == Parse(input, ok)
  {
    events := [];
    var current := CLEAN;
    var lines := Lines(input);
    for i := 0 to |lines|
      invariant events + Dispatched(current, lines[i..], ok) == Parse(input, ok)
    {
      var line := lines[i];
      assert lines[i..][1..] == lines[i + 1..] && lines[i..][0] == line;
      if line == "" {
        if current.data != "" {
          if ok(current.data) {
            events := events + [Event(current.id, current.event, current.data)];
          }
        }
        current := CLEAN;
        continue;
      }
      current := ReadField(current, line);
    }
    assert lines[|lines|..] == [];
  }

  /** One line that is not blank: a field, or a comment or unknown line that is skipped. */
  method ReadField(before: Partial, line: string) returns (current: Partial)
    ensures current == Field(before, line)
  {
    current := before;
    if "id:" <= line {
      current := current.(id := TrimSpace(line[3..]));
    } else if "event:" <= line {
      current := current.(event := TrimSpace(line[6..]));
    } else if "data:" <= line {
      var data := line[5..];
      if current.data != "" {
        current := current.(data := current.data + [LF] + data);
      } else {
        current := current.(data := data);
      }
    }
  }

  // ---------------------------------------------------------- round trip

  /** Text that comes through as one line: no line feed, and no carriage return at its end. */
  predicate OneLine(s: string) {
    LF !in s && (s != "" ==> s[|s| - 1] != CR)
  }

  /** What a frame must be for the client to read it back (see FrameReadBackIff). */
  predicate Sendable(it: Item, ok: string -> bool) {
    it.Frame? ==> LF !in it.name && Trimmed(it.name) && OneLine(it.data) && it.data != "" && ok(it.data)
  }

  /** What the client should make of it. */
  function Received(it: Item): seq<Event> {
    match it
    case Frame(id, name, data) => [Event(Decimal(id), name, data)]
    case Keepalive => []
  }

  function ReceivedAll(items: seq<Item>): seq<Event> {
    if items == [] then [] else Received(items[0]) + ReceivedAll(items[1..])
  }

  /** A complete line comes off the front. */
  lemma LinesCons(line: string, rest: string)
    requires OneLine(line)
    ensures Lines(line + [LF] + rest) == [line] + Lines(rest)
  {
    FirstLF(line, rest);
    LinesUnfold(line + [LF] + rest, |line|);
  }

  lemma FirstLF(line: string, rest: string)
    requires OneLine(line)
    ensures var s := line + [LF] + rest;
            IndexOf(s, LF) == |line| && s[..|line|] == line && s[|line| + 1..] == rest && DropCR(line) == line
  {
    var s := line + [LF] + rest;
    assert s[|line|] == LF;
    assert forall k :: 0 <= k < |line| ==> s[k] == line[k] && line[k] != LF;
    IndexAt(s, LF, |line|);
  }

  lemma LinesUnfold(s: string, i: nat)
    requires i < |s| && IndexOf(s, LF) == i
    ensures Lines(s) == [DropCR(s[..i])] + Lines(s[i + 1..])
  {}

  lemma IndexAt(s: string, c: char, i: nat)
    requires i < |s| && s[i] == c && forall k :: 0 <= k < i ==> s[k] != c
    ensures IndexOf(s, c) == i
  {}

  lemma DecimalLine(n: nat)
    ensures OneLine(Decimal(n)) && Trimmed(Decimal(n))
  {
    var s := Decimal(n);
    assert forall c :: c in s ==> '0' <= c <= '9';
  }

  lemma TrimmedStays(s: string)
    requires Trimmed(s)
    ensures TrimSpace(s) == s
  {
    TrimSpaceIs([], s, []);
    assert [] + s + [] == s;
  }

  /** One frame or comment, read from a clean start, yields its event and a clean start. */
  lemma ItemRead(it: Item, rest: string, ok: string -> bool)
    requires Sendable(it, ok)
    ensures Parse(Render(it) + rest, ok) == Received(it) + Parse(rest, ok)
  {
    match it
    case Keepalive =>
      assert Render(it) + rest == ":keepalive" + [LF] + ("" + [LF] + rest);
      LinesCons(":keepalive", "" + [LF] + rest);
      LinesCons("", rest);
      DispatchComment(":keepalive", Lines(rest), ok);
    case Frame(id, name, data) =>
      FrameLines(id, name, data, rest);
      DispatchFrame(id, name, data, Lines(rest), ok);
  }

  lemma FrameLines(id: nat, name: string, data: string, rest: string)
    requires LF !in name && Trimmed(name) && OneLine(data)
    ensures Lines(Render(Frame(id, name, data)) + rest)
            == ["id:" + Decimal(id)] + (["event:" + name] + (["data:" + data] + ([""] + Lines(rest))))
  {
    DecimalLine(id);
    var l1, l2, l3 := "id:" + Decimal(id), "event:" + name, "data:" + data;
    assert OneLine(l1) && OneLine(l2) && OneLine(l3);
    FourLines(l1, l2, l3, rest);
  }

  lemma FourLines(l1: string, l2: string, l3: string, rest: string)
    requires OneLine(l1) && OneLine(l2) && OneLine(l3)
    ensures Lines(l1 + [LF] + (l2 + [LF] + (l3 + [LF] + [LF])) + rest)
            == [l1] + ([l2] + ([l3] + ([""] + Lines(rest))))
  {
    var r3 := "" + [LF] + rest;
    var r2 := l3 + [LF] + r3;
    var r1 := l2 + [LF] + r2;
    assert l3 + [LF] + [LF] + rest == r2;
    assert l2 + [LF] + (l3 + [LF] + [LF]) + rest == r1;
    assert l1 + [LF] + (l2 + [LF] + (l3 + [LF] + [LF])) + rest == l1 + [LF] + r1;
    LinesCons(l1, r1);
    LinesCons(l2, r2);
    LinesCons(l3, r3);
    LinesCons("", rest);
  }

  lemma DispatchComment(line: string, rest: seq<string>, ok: string -> bool)
    requires line != "" && line[0] == ':'
    ensures Dispatched(CLEAN, [line] + ([""] + rest), ok) == Dispatched(CLEAN, rest, ok)
  {
    assert ([line] + ([""] + rest))[1..] == [""] + rest;
    assert ([""] + rest)[1..] == rest;
    assert Field(CLEAN, line) == CLEAN;
    assert Dispatched(CLEAN, [""] + rest, ok) == Dispatched(CLEAN, rest, ok);
  }

  lemma DispatchStep(p: Partial, line: string, rest: seq<string>, ok: string -> bool)
    requires line != ""
    ensures Dispatched(p, [line] + rest, ok) == Dispatched(Field(p, line), rest, ok)
  {
    assert ([line] + rest)[1..] == rest;
  }

  lemma DispatchFrame(id: nat, name: string, data: string, rest: seq<string>, ok: string -> bool)
    requires Trimmed(name) && data != "" && ok(data)
    ensures Dispatched(CLEAN, ["id:" + Decimal(id)] + (["event:" + name] + (["data:" + data] + ([""] + rest))), ok)
            == [Event(Decimal(id), name, data)] + Dispatched(CLEAN, rest, ok)
  {
    var l1, l2, l3 := "id:" + Decimal(id), "event:" + name, "data:" + data;
    FrameFields(id, name, data);
    var p1 := Field(CLEAN, l1);
    var p2 := Field(p1, l2);
    var p3 := Field(p2, l3);
    DispatchStep(CLEAN, l1, [l2] + ([l3] + ([""] + rest)), ok);
    DispatchStep(p1, l2, [l3] + ([""] + rest), ok);
    DispatchStep(p2, l3, [""] + rest, ok);
    assert ([""] + rest)[1..] == rest;
  }

  lemma FrameFields(id: nat, name: string, data: string)
    requires Trimmed(name) && data != ""
    ensures Field(Field(Field(CLEAN, "id:" + Decimal(id)), "event:" + name), "data:" + data)
            == Partial(Decimal(id), name, data)
  {
    DecimalLine(id);
    TrimmedStays(Decimal(id));
    TrimmedStays(name);
    assert ("id:" + Decimal(id))[3..] == Decimal(id);
    assert ("event:" + name)[0] == 'e' && ("event:" + name)[6..] == name;
    assert ("data:" + data)[0] == 'd' && ("data:" + data)[5..] == data;
  }

  /**
   Round trip: a client reading any sequence of frames and keepalives receives
   exactly the events that were written, in order.
   */
  lemma {:induction false} RoundTrip(items: seq<Item>, ok: string -> bool)
    requires forall it :: it in items ==> Sendable(it, ok)
    ensures Parse(RenderAll(items), ok) == ReceivedAll(items)
  {
    if items != [] {
      ItemRead(items[0], RenderAll(items[1..]), ok);
      RoundTrip(items[1..], ok);
    }
  }

  // --------------------------------------------- what the client makes of lines

  /** The three fields of a block: white space is cut off id and name, the data is taken as it is. */
  lemma BlockRead(x: string, y: string, z: string, rest: string, ok: string -> bool)
    requires OneLine(x) && OneLine(y) && OneLine(z)
    ensures Parse("id:" + x + "\n" + ("event:" + y + "\n" + ("data:" + z + "\n" + "\n")) + rest, ok) ==
            (if z != "" && ok(z) then [Event(TrimSpace(x), TrimSpace(y), z)] else []) + Parse(rest, ok)
  {
    var l1, l2, l3 := "id:" + x, "event:" + y, "data:" + z;
    FourLines(l1, l2, l3, rest);
    BlockFields(x, y, z);
    var p1, p2, p3 := Partial(TrimSpace(x), "", ""), Partial(TrimSpace(x), TrimSpace(y), ""),
        Partial(TrimSpace(x), TrimSpace(y), z);
    DispatchStep(CLEAN, l1, [l2] + ([l3] + ([""] + Lines(rest))), ok);
    DispatchStep(p1, l2, [l3] + ([""] + Lines(rest)), ok);
    DispatchStep(p2, l3, [""] + Lines(rest), ok);
    BlockEnds(p3, Lines(rest), ok);
  }

  lemma BlockFields(x: string, y: string, z: string)
    ensures var p1, p2 := Partial(TrimSpace(x), "", ""), Partial(TrimSpace(x), TrimSpace(y), "");
            && Field(CLEAN, "id:" + x) == p1 && Field(p1, "event:" + y) == p2
            && Field(p2, "data:" + z) == Partial(TrimSpace(x), TrimSpace(y), z)
  {
    assert ("id:" + x)[3..] == x && ("event:" + y)[6..] == y && ("data:" + z)[5..] == z;
    assert ("event:" + y)[0] == 'e' && ("data:" + z)[0] == 'd';
  }

  lemma BlockEnds(p: Partial, rest: seq<string>, ok: string -> bool)
    ensures Dispatched(p, [""] + rest, ok) ==
            (if p.data != "" && ok(p.data) then [Event(p.id, p.event, p.data)] else []) + Dispatched(CLEAN, rest, ok)
  {
    assert ([""] + rest)[1..] == rest;
  }

  lemma DataFields(a: string, b: string)
    requires a != ""
    ensures Field(CLEAN, "data:" + a) == Partial("", "", a)
    ensures Field(Partial("", "", a), "data:" + b) == Partial("", "", a + "\n" + b)
  {
    assert ("data:" + a)[5..] == a && ("data:" + b)[5..] == b;
    assert ("data:" + a)[0] == 'd' && ("data:" + b)[0] == 'd';
  }

  /** Several data lines are joined with line feeds. */
  lemma DataJoined(a: string, b: string, rest: string, ok: string -> bool)
    requires OneLine(a) && OneLine(b) && a != ""
    ensures Parse("data:" + a + "\n" + ("data:" + b + "\n" + ("" + "\n" + rest)), ok) ==
            (if ok(a + "\n" + b) then [Event("", "", a + "\n" + b)] else []) + Parse(rest, ok)
  {
    var l1, l2 := "data:" + a, "data:" + b;
    var r1 := l2 + [LF] + ("" + [LF] + rest);
    LinesCons(l1, r1);
    LinesCons(l2, "" + [LF] + rest);
    LinesCons("", rest);
    DataFields(a, b);
    var p1, p2 := Partial("", "", a), Partial("", "", a + [LF] + b);
    DispatchStep(CLEAN, l1, [l2] + ([""] + Lines(rest)), ok);
    DispatchStep(p1, l2, [""] + Lines(rest), ok);
    BlockEnds(p2, Lines(rest), ok);
  }

  /** A line that is none of the three fields changes nothing, and a carriage return before the line feed is dropped. */
  lemma LineSkipped(line: string, rest: string, ok: string -> bool)
    requires OneLine(line) && line != "" && !("id:" <= line) && !("event:" <= line) && !("data:" <= line)
    ensures Parse(line + "\n" + rest, ok) == Parse(rest, ok)
  {
    LinesCons(line, rest);
    DispatchStep(CLEAN, line, Lines(rest), ok);
  }

  lemma CarriageReturnDropped(line: string, rest: string)
    requires LF !in line
    ensures Lines(line + "\r\n" + rest) == [line] + Lines(rest)
  {
    var s, n := line + "\r\n" + rest, |line| + 1;
    assert s[n] == LF && forall k :: 0 <= k < n ==> s[k] == (line + "\r")[k];
    assert forall k :: 0 <= k < |line| ==> line[k] in line;
    IndexAt(s, LF, n);
    assert s[..n] == line + "\r" && s[n + 1..] == rest;
    LinesUnfold(s, n);
    assert (line + "\r")[..|line|] == line;
  }

  // ----------------------------------------------------------- cut stream

  /** How many items lie entirely within the first k characters. */
  function Complete(items: seq<Item>, k: nat): (m: nat)
    ensures m <= |items|
  {
    if items == [] || k < |Render(items[0])| then 0
    else 1 + Complete(items[1..], k - |Render(items[0])|)
  }

  /** Text whose lines are all non-blank: none starts with a line end of either kind. */
  predicate NoBlankLine(s: string) {
    && (s != "" ==> s[0] != LF && s[0] != CR)
    && forall i :: 0 < i < |s| && (s[i] == LF || s[i] == CR) ==> s[i - 1] != LF
  }

  lemma {:induction false} NoBlankNoEvent(p: Partial, s: string, ok: string -> bool)
    requires NoBlankLine(s)
    ensures Dispatched(p, Lines(s), ok) == []
    decreases |s|
  {
    if s != [] {
      var i := IndexOf(s, LF);
      var line := DropCR(s[..i]);
      assert s[0] != LF && s[0] != CR;
      assert s[..i][0] == s[0];
      assert line != "";
      if i < |s| {
        var rest := s[i + 1..];
        assert forall j :: 0 <= j < |rest| ==> rest[j] == s[i + 1 + j];
        NoBlankNoEvent(Field(p, line), rest, ok);
        assert ([line] + Lines(rest))[1..] == Lines(rest);
      } else {
        assert Lines(s) == [line];
        assert [line][1..] == [];
      }
    }
  }

  lemma NoBlankJoin(a: string, b: string)
    requires NoBlankLine(a) && NoBlankLine(b)
    ensures NoBlankLine(a + b)
  {}

  lemma NoBlankPrefix(s: string, k: nat)
    requires NoBlankLine(s) && k <= |s|
    ensures NoBlankLine(s[..k])
  {}

  lemma NoBlankOne(line: string)
    requires LF !in line && line != "" && line[0] != CR
    ensures NoBlankLine(line + [LF])
  {
    assert forall i :: 0 <= i < |line| ==> line[i] in line;
  }

  /** An item cut short anywhere, even just before its last line end, has no blank line. */
  lemma CutItem(it: Item, k: nat, ok: string -> bool)
    requires Sendable(it, ok) && k < |Render(it)|
    ensures NoBlankLine(Render(it)[..k])
  {
    match it
    case Keepalive =>
      NoBlankOne(":keepalive");
      NoBlankPrefix(":keepalive" + [LF], k);
      assert Render(it)[..k] == (":keepalive" + [LF])[..k];
    case Frame(id, name, data) =>
      var l1, l2, l3 := "id:" + Decimal(id), "event:" + name, "data:" + data;
      DecimalLine(id);
      NoBlankOne(l1);
      NoBlankOne(l2);
      NoBlankOne(l3);
      var body := (l1 + [LF]) + ((l2 + [LF]) + (l3 + [LF]));
      NoBlankJoin(l2 + [LF], l3 + [LF]);
      NoBlankJoin(l1 + [LF], (l2 + [LF]) + (l3 + [LF]));
      assert Render(it) == body + [LF];
      NoBlankPrefix(body, k);
      assert Render(it)[..k] == body[..k];
  }

  lemma CutLater(items: seq<Item>, k: nat, ok: string -> bool)
    requires items != [] && Sendable(items[0], ok) && |Render(items[0])| <= k <= |RenderAll(items)|
    ensures Parse(RenderAll(items)[..k], ok)
            == Received(items[0]) + Parse(RenderAll(items[1..])[..k - |Render(items[0])|], ok)
  {
    var n, rest := |Render(items[0])|, RenderAll(items[1..]);
    assert RenderAll(items)[..k] == Render(items[0]) + rest[..k - n];
    ItemRead(items[0], rest[..k - n], ok);
  }

  lemma ReceivedCons(items: seq<Item>, m: nat)
    requires m < |items|
    ensures ReceivedAll(items[..m + 1]) == Received(items[0]) + ReceivedAll(items[1..][..m])
  {
    assert items[..m + 1][1..] == items[1..][..m] && items[..m + 1][0] == items[0];
  }

  lemma CutFirst(items: seq<Item>, k: nat, ok: string -> bool)
    requires items != [] && Sendable(items[0], ok) && k < |Render(items[0])|
    ensures k <= |RenderAll(items)| && Parse(RenderAll(items)[..k], ok) == []
  {
    assert RenderAll(items)[..k] == Render(items[0])[..k];
    CutItem(items[0], k, ok);
    NoBlankNoEvent(CLEAN, Render(items[0])[..k], ok);
  }

  /**
   A stream cut off anywhere yields exactly the events of the items that were
   written completely: a frame cut short is never delivered in a damaged form.
   */
  lemma {:induction false} CutStream(items: seq<Item>, k: nat, ok: string -> bool)
    requires forall it :: it in items ==> Sendable(it, ok)
    requires k <= |RenderAll(items)|
    ensures Parse(RenderAll(items)[..k], ok) == ReceivedAll(items[..Complete(items, k)])
  {
    if items != [] {
      var n := |Render(items[0])|;
      if k < n {
        CutFirst(items, k, ok);
      } else {
        CutLater(items, k, ok);
        CutStream(items[1..], k - n, ok);
        ReceivedCons(items, Complete(items[1..], k - n));
      }
    }
  }

  /** So what a client has received so far is a prefix of what it will have received. */
  lemma CutStreamPrefix(items: seq<Item>, k: nat, ok: string -> bool)
    requires forall it :: it in items ==> Sendable(it, ok)
    requires k <= |RenderAll(items)|
    ensures Parse(RenderAll(items)[..k], ok) <= Parse(RenderAll(items), ok)
  {
    RoundTrip(items, ok);
    CutStream(items, k, ok);
    ReceivedPrefix(items, Complete(items, k));
  }

  lemma {:induction false} ReceivedPrefix(items: seq<Item>, m: nat)
    requires m <= |items|
    ensures ReceivedAll(items[..m]) <= ReceivedAll(items)
  {
    if m > 0 {
      ReceivedPrefix(items[1..], m - 1);
      assert items[..m][1..] == items[1..][..m - 1];
    }
  }

  // ------------------------------------------------- exactly what survives

  function CountLF(s: string): nat {
    if s == [] then 0 else CountLF(s[..|s| - 1]) + if s[|s| - 1] == LF then 1 else 0
  }

  lemma {:induction false} CountLFAppend(a: string, b: string)
    ensures CountLF(a + b) == CountLF(a) + CountLF(b)
  {
    if b == [] {
      assert a + b == a;
    } else {
      assert (a + b)[..|a + b| - 1] == a + b[..|b| - 1];
      CountLFAppend(a, b[..|b| - 1]);
    }
  }

  lemma {:induction false} CountLFZero(s: string)
    ensures CountLF(s) == 0 <==> LF !in s
  {
    if s != [] {
      CountLFZero(s[..|s| - 1]);
      assert s == s[..|s| - 1] + [s[|s| - 1]];
    }
  }

  /** Each line end within data costs the five characters of a further field name. */
  function Weight(data: string): nat {
    |data| + 5 * CountLF(data)
  }

  /** Characters that are gone before an event can carry any data. */
  function Overhead(p: Partial): nat {
    if p.data == "" then 7 else 1
  }

  lemma FieldWeight(p: Partial, line: string)
    requires LF !in line
    ensures var q := Field(p, line);
            Weight(q.data) + Overhead(p) <= Weight(p.data) + |line| + 1 + Overhead(q)
  {
    if "data:" <= line && !("id:" <= line) && !("event:" <= line) {
      var d := line[5..];
      CountLFZero(d);
      CountLFZero(p.data);
      CountLFAppend(p.data, [LF]);
      CountLFAppend(p.data + [LF], d);
      assert CountLF([LF]) == 1;
    }
  }

  /** No event carries more than the stream paid for. */
  lemma {:induction false} EventWeight(p: Partial, s: string, ok: string -> bool, e: Event)
    requires e in Dispatched(p, Lines(s), ok)
    ensures Weight(e.data) + Overhead(p) <= Weight(p.data) + |s|
    decreases |s|
  {
    if s != [] {
      var i := IndexOf(s, LF);
      var line := DropCR(s[..i]);
      var tail := if i == |s| then "" else s[i + 1..];
      assert Lines(s) == [line] + Lines(tail);
      assert ([line] + Lines(tail))[1..] == Lines(tail);
      if line == "" {
        if e in Dispatched(CLEAN, Lines(tail), ok) {
          EventWeight(CLEAN, tail, ok, e);
        }
      } else {
        assert LF !in line;
        FieldWeight(p, line);
        EventWeight(Field(p, line), tail, ok, e);
      }
    }
  }

  /** Event names come out trimmed and without line feeds. */
  lemma {:induction false} EventName(p: Partial, s: string, ok: string -> bool, e: Event)
    requires e in Dispatched(p, Lines(s), ok)
    requires Trimmed(p.event) && LF !in p.event
    ensures Trimmed(e.name) && LF !in e.name
    ensures e.data != "" && ok(e.data)
    decreases |s|
  {
    if s != [] {
      var i := IndexOf(s, LF);
      var line := DropCR(s[..i]);
      var tail := if i == |s| then "" else s[i + 1..];
      assert Lines(s) == [line] + Lines(tail);
      assert ([line] + Lines(tail))[1..] == Lines(tail);
      if line == "" {
        if e in Dispatched(CLEAN, Lines(tail), ok) {
          EventName(CLEAN, tail, ok, e);
        }
      } else {
        assert LF !in line;
        FieldName(p, line);
        EventName(Field(p, line), tail, ok, e);
      }
    }
  }

  lemma FieldName(p: Partial, line: string)
    requires Trimmed(p.event) && LF !in p.event && LF !in line
    ensures Trimmed(Field(p, line).event) && LF !in Field(p, line).event
  {
    if "event:" <= line {
      var pre, post := TrimSpaceSplits(line[6..]);
      var t := TrimSpace(line[6..]);
      forall c | c in t ensures c in line {
        assert c in pre + t + post;
      }
    }
  }

  /**
   A frame is read back as it was written if and only if its name is trimmed and
   free of line feeds and its data is a non-empty decodable payload on one line.
   */
  lemma FrameReadBackIff(it: Item, ok: string -> bool)
    requires it.Frame?
    ensures Parse(Render(it), ok) == Received(it) <==> Sendable(it, ok)
  {
    if Sendable(it, ok) {
      ItemRead(it, "", ok);
      assert Render(it) + "" == Render(it);
    }
    if Parse(Render(it), ok) == Received(it) {
      var e := Event(Decimal(it.id), it.name, it.data);
      assert e in Parse(Render(it), ok);
      EventName(CLEAN, Render(it), ok, e);
      ReadBackData(it, ok, e);
    }
  }

  lemma ReadBackData(it: Item, ok: string -> bool, e: Event)
    requires it.Frame? && Trimmed(it.name) && LF !in it.name && it.data != ""
    requires Parse(Render(it), ok) == [e] && e.data == it.data
    ensures OneLine(it.data)
  {
    var r2 := "data:" + it.data + [LF] + [LF];
    var p := AfterHeader(it, r2, ok);
    assert Render(it) == "id:" + Decimal(it.id) + [LF] + ("event:" + it.name + [LF] + r2);
    EventWeight(p, r2, ok, e);
    CountLFZero(it.data);
    if it.data[|it.data| - 1] == CR {
      LostCR(p, it.data, ok);
    }
  }

  /** The state of the parser when the first two lines of a frame have been read. */
  lemma AfterHeader(it: Item, rest: string, ok: string -> bool) returns (p: Partial)
    requires it.Frame? && Trimmed(it.name) && LF !in it.name
    ensures p.data == ""
    ensures Parse("id:" + Decimal(it.id) + [LF] + ("event:" + it.name + [LF] + rest), ok)
            == Dispatched(p, Lines(rest), ok)
  {
    var l1, l2 := "id:" + Decimal(it.id), "event:" + it.name;
    DecimalLine(it.id);
    assert OneLine(l1) && OneLine(l2);
    TwoLines(l1, l2, rest, ok);
    p := Field(Field(CLEAN, l1), l2);
    HeaderHasNoData(Decimal(it.id), it.name);
  }

  lemma HeaderHasNoData(id: string, name: string)
    ensures Field(Field(CLEAN, "id:" + id), "event:" + name).data == ""
  {
    assert ("id:" + id)[0] == 'i' && ("event:" + name)[0] == 'e';
  }

  lemma TwoLines(l1: string, l2: string, rest: string, ok: string -> bool)
    requires OneLine(l1) && OneLine(l2) && l1 != "" && l2 != ""
    ensures Parse(l1 + [LF] + (l2 + [LF] + rest), ok) == Dispatched(Field(Field(CLEAN, l1), l2), Lines(rest), ok)
  {
    var r1 := l2 + [LF] + rest;
    LinesCons(l1, r1);
    LinesCons(l2, rest);
    DispatchStep(CLEAN, l1, Lines(r1), ok);
    DispatchStep(Field(CLEAN, l1), l2, Lines(rest), ok);
  }

  lemma LostCR(p: Partial, data: string, ok: string -> bool)
    requires p.data == "" && LF !in data && data != "" && data[|data| - 1] == CR
    ensures forall e :: e in Dispatched(p, Lines("data:" + data + [LF] + [LF]), ok) ==> e.data != data
  {
    var kept := "data:" + data[..|data| - 1];
    LinesLoseCR("data:" + data);
    assert DropCR("data:" + data) == kept;
    DispatchStep(p, kept, [""], ok);
    assert kept[0] == 'd' && kept[5..] == data[..|data| - 1];
    assert [""][1..] == [];
  }

  lemma LinesLoseCR(line: string)
    requires LF !in line
    ensures Lines(line + [LF] + [LF]) == [DropCR(line)] + [""]
  {
    var s := line + [LF] + [LF];
    assert s[|line|] == LF;
    assert forall k :: 0 <= k < |line| ==> s[k] == line[k] && line[k] in line;
    IndexAt(s, LF, |line|);
    assert s[..|line|] == line && s[|line| + 1..] == [LF];
    LinesUnfold(s, |line|);
    assert Lines([LF]) == [""] by {
      assert [LF][..0] == "" && [LF][1..] == "";
    }
  }
}
