/**
 Objects printed in the strict textual encoding of section 3 of RFC 7468, with any line break and any
 white space around them, are read back by `validate_pem` with their labels and their base64 text.
 */
module PemRoundTrip {
  import opened Wrappers
  import opened PemValidation

  const DASHES: string := "-----"

  predicate Base64Char(c: char) {
    'A' <= c <= 'Z' || 'a' <= c <= 'z' || '0' <= c <= '9' || c in {'+', '/', '='}
  }

  ghost predicate Sane(k: Chars) {
    && (forall c :: k.eol(c) ==> k.space(c))
    && (forall c :: Base64Char(c) ==> !k.space(c))
    && !k.space('-')
  }

  // ---------- Printing ----------

  /** An object to print: its label, and its base64 text in lines. */
  datatype Item = Item(name: string, lines: seq<string>)

  function BeginLine(name: string, rest: string): string {
    DASHES + ("BEGIN " + (name + (DASHES + rest)))
  }

  function EndLine(name: string, rest: string): string {
    DASHES + ("END " + (name + (DASHES + rest)))
  }

  function Joined(lines: seq<string>, eol: string): string {
    if lines == [] then "" else if |lines| == 1 then lines[0] else lines[0] + (eol + Joined(lines[1..], eol))
  }

  function Block(it: Item, eol: string): string {
    BeginLine(it.name, eol + (Joined(it.lines, eol) + (eol + EndLine(it.name, ""))))
  }

  function Print(items: seq<Item>, eol: string, tail: string): string {
    if items == [] then tail
    else if |items| == 1 then Block(items[0], eol) + tail
    else Block(items[0], eol) + (eol + Print(items[1..], eol, tail))
  }

  function Flat(lines: seq<string>): string {
    if lines == [] then "" else Flat(lines[..|lines| - 1]) + lines[|lines| - 1]
  }

  predicate Base64Line(line: string) {
    forall i | 0 <= i < |line| :: Base64Char(line[i])
  }

  /** A supported label, and lines of base64 text that decode to something. */
  ghost predicate Printable(k: Chars, decode: string -> Decoded, it: Item) {
    && it.name != "" && it.name[|it.name| - 1] != ' ' && All(LabelChar, it.name) && !KindOf(k, it.name).Unsupported?
    && it.lines != [] && (forall l <- it.lines :: l != "" && Base64Line(l))
    && decode(Flat(it.lines)).Bytes? && decode(Flat(it.lines)).bytes != []
  }

  function Expected(k: Chars, decode: string -> Decoded, it: Item, eol: string): Pem
    requires decode(Flat(it.lines)).Bytes?
  {
    match KindOf(k, it.name)
    case Key(keyType) =>
      var encrypted := IsEncrypted(keyType, it.name, Joined(it.lines, eol), decode(Flat(it.lines)).bytes);
      Pem(PRIVATE_KEY, Some(keyType), Some(encrypted), Flat(it.lines))
    case _ => Pem(it.name, None, None, Flat(it.lines))
  }

  ghost function AllExpected(k: Chars, decode: string -> Decoded, items: seq<Item>, eol: string): seq<Pem>
    requires forall it <- items :: Printable(k, decode, it)
  {
    if items == [] then []
    else
      assert items[0] in items && Printable(k, decode, items[0]) && forall it <- items[1..] :: it in items;
      [Expected(k, decode, items[0], eol)] + AllExpected(k, decode, items[1..], eol)
  }

  predicate LineBreak(k: Chars, eol: string) {
    eol != "" && All(k.eol, eol)
  }

  // ---------- The base64 text ----------

  lemma {:induction false} FlatConcat(a: seq<string>, b: seq<string>)
    ensures Flat(a + b) == Flat(a) + Flat(b)
    decreases |b|
  {
    if b == [] {
      assert a + b == a;
    } else {
      var ab, last := a + b, b[|b| - 1];
      assert ab[..|ab| - 1] == a + b[..|b| - 1] && ab[|ab| - 1] == last;
      FlatConcat(a, b[..|b| - 1]);
      assert Flat(a) + Flat(b[..|b| - 1]) + last == Flat(a) + (Flat(b[..|b| - 1]) + last);
    }
  }

  lemma StripLine(k: Chars, line: string)
    requires Sane(k) && Base64Line(line)
    ensures Strip(k, line) == line && !Header(line)
  {
    if line != "" {
      assert Base64Char(line[0]) && Base64Char(line[|line| - 1]);
    }
  }

  lemma {:induction false} Base64OfLines(k: Chars, lines: seq<string>)
    requires Sane(k) && forall l <- lines :: Base64Line(l)
    ensures Base64(k, lines) == (Flat(lines), false)
  {
    if lines != [] {
      Base64OfLines(k, lines[..|lines| - 1]);
      var line := lines[|lines| - 1];
      assert line in lines;
      StripLine(k, line);
      assert line == "" ==> Flat(lines[..|lines| - 1]) + line == Flat(lines[..|lines| - 1]);
    }
  }

  /** Splitting gives lines of base64 text with the text `flat` in all. */
  ghost predicate SplitsTo(k: Chars, s: string, flat: string) {
    (forall l <- Lines(k, s) :: Base64Line(l)) && Flat(Lines(k, s)) == flat
  }

  lemma {:induction false} BreaksSplitOff(k: Chars, eol: string, s: string, flat: string)
    requires All(k.eol, eol) && SplitsTo(k, s, flat)
    ensures SplitsTo(k, eol + s, flat)
  {
    if eol == "" {
      assert eol + s == s;
    } else {
      assert (eol + s)[1..] == eol[1..] + s;
      BreaksSplitOff(k, eol[1..], s, flat);
      var rest := Lines(k, eol[1..] + s);
      assert Lines(k, eol + s) == [""] + rest;
      FlatConcat([""], rest);
      assert Flat([""]) == "" by { assert [""][..0] == []; }
    }
  }

  lemma LineSplitsOff(k: Chars, line: string, eol: string, s: string, flat: string)
    requires Sane(k) && Base64Line(line) && line != "" && LineBreak(k, eol) && SplitsTo(k, s, flat)
    ensures SplitsTo(k, line + (eol + s), line + flat)
  {
    var rest := eol[1..] + s;
    BreaksSplitOff(k, eol[1..], s, flat);
    assert eol + s == [eol[0]] + rest;
    assert forall i | 0 <= i < |line| :: !k.eol(line[i]) by {
      assert forall i | 0 <= i < |line| :: Base64Char(line[i]);
    }
    TakeAndDrop(line, eol + s, NotEol(k));
    assert Lines(k, line + (eol + s)) == [line] + Lines(k, rest) by {
      assert (eol + s)[1..] == rest;
    }
    FlatConcat([line], Lines(k, rest));
    assert Flat([line]) == line by { assert [line][..0] == []; }
  }

  lemma OnlyLine(k: Chars, line: string)
    requires Sane(k) && Base64Line(line) && line != ""
    ensures SplitsTo(k, line, line)
  {
    assert forall i | 0 <= i < |line| :: !k.eol(line[i]) by {
      assert forall i | 0 <= i < |line| :: Base64Char(line[i]);
    }
    TakeAndDrop(line, "", NotEol(k));
    assert line + "" == line;
    assert Lines(k, line) == [line];
    assert Flat([line]) == line by { assert [line][..0] == []; }
  }

  lemma {:induction false} JoinedSplits(k: Chars, lines: seq<string>, eol: string)
    requires Sane(k) && LineBreak(k, eol) && lines != [] && forall l <- lines :: l != "" && Base64Line(l)
    ensures SplitsTo(k, Joined(lines, eol), Flat(lines))
  {
    assert lines[0] in lines;
    if |lines| == 1 {
      OnlyLine(k, lines[0]);
      assert lines[..0] == [];
    } else {
      JoinedSplits(k, lines[1..], eol);
      LineSplitsOff(k, lines[0], eol, Joined(lines[1..], eol), Flat(lines[1..]));
      assert lines == [lines[0]] + lines[1..];
      FlatConcat([lines[0]], lines[1..]);
      assert Flat([lines[0]]) == lines[0] by { assert [lines[0]][..0] == []; }
    }
  }

  // ---------- The match ----------

  lemma TailOfEndLine(name: string, rest: string)
    requires name != ""
    ensures Tail(EndLine(name, rest), DASHES, name) == Some(rest)
  {
    var e3 := DASHES + rest;
    var e2 := name + e3;
    var e1 := "END " + e2;
    EatPrefix(DASHES, e1);
    assert Drop(e1, Blank) == e1 by { assert e1[0] == 'E'; }
    EatPrefix("END ", e2);
    EatPrefix(name, e3);
    assert Drop(e3, Blank) == e3 by { assert e3[0] == '-'; }
    EatPrefix(DASHES, rest);
  }

  /** A text that starts with no dash is no end line. */
  lemma NoTail(s: string, name: string)
    requires s != "" && s[0] != '-'
    ensures Tail(s, DASHES, name).None?
  {
    assert DASHES[0] == '-';
  }

  /** No dash in it, and no white space at its ends. */
  ghost predicate Text(k: Chars, s: string) {
    s != "" && (forall i | 0 <= i < |s| :: s[i] != '-') && !k.space(s[|s| - 1])
  }

  lemma {:induction false} DropStaysInside(k: Chars, body: string, e: string)
    requires Text(k, body)
    ensures var d := Drop(body + e, k.space); d != "" && d[0] != '-'
  {
    if k.space(body[0]) {
      assert (body + e)[1..] == body[1..] + e;
      assert body[1..] != "" by { assert body[|body| - 1] != body[0] || |body| > 1; }
      DropStaysInside(k, body[1..], e);
    } else {
      assert (body + e)[0] == body[0];
    }
  }

  lemma {:induction false} UpToTailOfBody(k: Chars, body: string, e: string, name: string, rest: string)
    requires Text(k, body) && Tail(Drop(e, k.space), DASHES, name) == Some(rest)
    ensures UpToTail(k, body + e, DASHES, name) == Some((body, rest))
  {
    var s := body + e;
    if |body| == 1 {
      assert s[1..] == e && [s[0]] == body;
    } else {
      assert s[1..] == body[1..] + e;
      DropStaysInside(k, body[1..], e);
      NoTail(Drop(s[1..], k.space), name);
      UpToTailOfBody(k, body[1..], e, name, rest);
      assert [s[0]] + body[1..] == body;
    }
  }

  lemma {:induction false} JoinedIsText(k: Chars, lines: seq<string>, eol: string)
    requires Sane(k) && LineBreak(k, eol) && lines != [] && forall l <- lines :: l != "" && Base64Line(l)
    ensures Text(k, Joined(lines, eol)) && !k.space(Joined(lines, eol)[0])
  {
    var line := lines[0];
    assert line in lines && Base64Char(line[0]) && Base64Char(line[|line| - 1]);
    assert forall i | 0 <= i < |line| :: line[i] != '-' by {
      assert forall i | 0 <= i < |line| :: Base64Char(line[i]);
    }
    if |lines| > 1 {
      assert forall l <- lines[1..] :: l in lines;
      JoinedIsText(k, lines[1..], eol);
    }
  }

  lemma BodyOfBlock(k: Chars, eol: string, body: string, name: string, rest: string)
    requires Sane(k) && LineBreak(k, eol) && Text(k, body) && !k.space(body[0]) && name != ""
    ensures Body(k, eol + (body + (eol + EndLine(name, rest))), DASHES, name) == Some((body, rest))
  {
    var e := eol + EndLine(name, rest);
    assert EndLine(name, rest)[0] == '-';
    TakeAndDrop(eol, EndLine(name, rest), k.space);
    TailOfEndLine(name, rest);
    TakeAndDrop(eol, body + e, k.space);
    UpToTailOfBody(k, body, e, name, rest);
  }

  lemma LabelOfName(name: string)
    requires name != "" && name[|name| - 1] != ' '
    ensures Label(name) == name
  {
  }

  lemma MatchBegins(k: Chars, name: string, s: string)
    requires name != "" && name[|name| - 1] != ' ' && All(LabelChar, name)
    ensures MatchPem(k, BeginLine(name, s)) ==
      (var body := Body(k, s, DASHES, name); if body.None? then None
        else Some(Match(name, body.value.0, UpToEnd(body.value.1))))
  {
    var b3 := DASHES + s;
    var b2 := name + b3;
    var b1 := "BEGIN " + b2;
    assert b1[0] == 'B' && b3[0] == '-';
    TakeAndDrop(DASHES, b1, Dash);
    assert Drop(b1, Blank) == b1;
    EatPrefix("BEGIN ", b2);
    TakeAndDrop(name, b3, LabelChar);
    LabelOfName(name);
    EatPrefix(DASHES, s);
  }

  // ---------- One block after the other ----------

  lemma BlockThen(it: Item, eol: string, next: string)
    ensures Block(it, eol) + next ==
      BeginLine(it.name, eol + (Joined(it.lines, eol) + (eol + EndLine(it.name, next))))
  {
    var body := Joined(it.lines, eol);
    assert EndLine(it.name, "") + next == EndLine(it.name, next);
    var a := eol + (body + (eol + EndLine(it.name, "")));
    assert a + next == eol + (body + (eol + (EndLine(it.name, "") + next)));
    assert BeginLine(it.name, a) + next == BeginLine(it.name, a + next);
  }

  lemma MatchOfBlock(k: Chars, decode: string -> Decoded, it: Item, eol: string, next: string)
    requires Sane(k) && LineBreak(k, eol) && Printable(k, decode, it)
    ensures MatchPem(k, Block(it, eol) + next) == Some(Match(it.name, Joined(it.lines, eol), UpToEnd(next)))
  {
    var body := Joined(it.lines, eol);
    JoinedIsText(k, it.lines, eol);
    BodyOfBlock(k, eol, body, it.name, next);
    BlockThen(it, eol, next);
    MatchBegins(k, it.name, eol + (body + (eol + EndLine(it.name, next))));
  }

  lemma ObjectOfBlock(k: Chars, decode: string -> Decoded, it: Item, eol: string, next: string)
    requires Sane(k) && LineBreak(k, eol) && Printable(k, decode, it)
    ensures Object(k, decode, Match(it.name, Joined(it.lines, eol), next)) == Ok([Expected(k, decode, it, eol)])
  {
    JoinedSplits(k, it.lines, eol);
    Base64OfLines(k, Lines(k, Joined(it.lines, eol)));
  }

  lemma BlockEndsWithDash(it: Item, eol: string)
    ensures Block(it, eol) != "" && Block(it, eol)[0] == '-' && Block(it, eol)[|Block(it, eol)| - 1] == '-'
  {
    var e := EndLine(it.name, "");
    assert e[|e| - 1] == '-';
    var a := eol + (Joined(it.lines, eol) + (eol + e));
    assert a[|a| - 1] == '-';
  }

  lemma UpToEndConcat(a: string, b: string)
    requires b != "" || (a != "" && a[|a| - 1] != '\n')
    ensures UpToEnd(a + b) == a + UpToEnd(b)
  {
    if b == "" {
      assert a + b == a && a + UpToEnd(b) == a;
    }
  }

  /** The line feed that `$` leaves out is white space after the last object. */
  lemma {:induction false} PrintUpToEnd(items: seq<Item>, eol: string, tail: string)
    requires items != []
    ensures UpToEnd(Print(items, eol, tail)) == Print(items, eol, UpToEnd(tail))
    ensures Print(items, eol, tail) != "" && Print(items, eol, tail)[0] == '-'
  {
    BlockEndsWithDash(items[0], eol);
    if |items| == 1 {
      UpToEndConcat(Block(items[0], eol), tail);
    } else {
      PrintUpToEnd(items[1..], eol, tail);
      UpToEndConcat(eol, Print(items[1..], eol, tail));
      UpToEndConcat(Block(items[0], eol), eol + Print(items[1..], eol, tail));
    }
  }

  /** What is left after the first object, without the white space before it. */
  lemma NextOfPrint(k: Chars, items: seq<Item>, eol: string, tail: string)
    requires Sane(k) && LineBreak(k, eol) && All(k.space, tail) && items != []
    ensures Drop(UpToEnd(eol + Print(items, eol, tail)), k.space) == Print(items, eol, UpToEnd(tail))
  {
    PrintUpToEnd(items, eol, tail);
    PrintUpToEnd(items, eol, UpToEnd(tail));
    UpToEndConcat(eol, Print(items, eol, tail));
    TakeAndDrop(eol, Print(items, eol, UpToEnd(tail)), k.space);
  }

  lemma NothingLeft(k: Chars, tail: string)
    requires All(k.space, tail)
    ensures Drop(UpToEnd(tail), k.space) == ""
  {
    TakeAndDrop(UpToEnd(tail), "", k.space);
    assert UpToEnd(tail) + "" == UpToEnd(tail);
  }

  lemma FirstObject(k: Chars, decode: string -> Decoded, it: Item, eol: string, next: string)
    requires Sane(k) && LineBreak(k, eol) && Printable(k, decode, it)
    ensures Objects(k, decode, Block(it, eol) + next) ==
      After([Expected(k, decode, it, eol)], Objects(k, decode, Drop(UpToEnd(next), k.space)))
  {
    BlockEndsWithDash(it, eol);
    MatchOfBlock(k, decode, it, eol, next);
    ObjectOfBlock(k, decode, it, eol, UpToEnd(next));
  }

  lemma {:induction false} ObjectsOfPrint(k: Chars, decode: string -> Decoded, items: seq<Item>, eol: string,
      tail: string)
    requires Sane(k) && LineBreak(k, eol) && All(k.space, tail) && items != []
    requires forall it <- items :: Printable(k, decode, it)
    ensures Objects(k, decode, Print(items, eol, tail)) == Ok(AllExpected(k, decode, items, eol))
    decreases |items|
  {
    var it := items[0];
    assert it in items;
    if |items| == 1 {
      FirstObject(k, decode, it, eol, tail);
      NothingLeft(k, tail);
      assert items[1..] == [];
    } else {
      FirstObject(k, decode, it, eol, eol + Print(items[1..], eol, tail));
      assert forall i <- items[1..] :: i in items;
      NextOfPrint(k, items[1..], eol, tail);
      ObjectsOfPrint(k, decode, items[1..], eol, UpToEnd(tail));
    }
  }

  /**
   Reading what was printed gives the same objects in the same order, with private key labels made
   one kind, unless their numbers are outside the limits.
   */
  lemma RoundTrip(k: Chars, decode: string -> Decoded, items: seq<Item>, before: string, eol: string, after: string,
      l: Limits)
    requires Sane(k) && LineBreak(k, eol) && All(k.space, before) && All(k.space, after)
    requires forall it <- items :: Printable(k, decode, it)
    ensures Validated(k, decode, before + Print(items, eol, after), l) == Limited(AllExpected(k, decode, items, eol), l)
  {
    if items == [] {
      TakeAndDrop(before + after, "", k.space);
      assert before + after + "" == before + after;
    } else {
      PrintUpToEnd(items, eol, after);
      TakeAndDrop(before, Print(items, eol, after), k.space);
      ObjectsOfPrint(k, decode, items, eol, after);
    }
  }

  // ---------- Whatever is accepted ----------

  predicate Acceptable(decode: string -> Decoded, p: Pem) {
    && (p.kind == PRIVATE_KEY || p.kind == CERTIFICATE) && (p.keyType.Some? <==> p.kind == PRIVATE_KEY)
    && (p.keyType.Some? ==> p.keyType.value in KEY_TYPES.Values)
    && decode(p.b64).Bytes? && decode(p.b64).bytes != []
  }

  lemma ObjectIsAcceptable(k: Chars, decode: string -> Decoded, m: Match)
    requires Object(k, decode, m).Ok?
    ensures Acceptable(decode, Object(k, decode, m).objects[0])
  {
    KindsDiffer();
  }

  lemma {:induction false} ObjectsAreAcceptable(k: Chars, decode: string -> Decoded, s: string)
    ensures Objects(k, decode, s).Ok? ==> forall p <- Objects(k, decode, s).objects :: Acceptable(decode, p)
    decreases |s|
  {
    if s != "" && Objects(k, decode, s).Ok? {
      var m := MatchPem(k, s).value;
      ObjectIsAcceptable(k, decode, m);
      ObjectsAreAcceptable(k, decode, Drop(m.next, k.space));
    }
  }

  lemma {:induction false} EveryObjectCounts(decode: string -> Decoded, ps: seq<Pem>)
    requires forall p <- ps :: Acceptable(decode, p)
    ensures CountKeys(ps) + CountCerts(ps) == |ps|
  {
    KindsDiffer();
    if ps != [] {
      assert ps[|ps| - 1] in ps;
      EveryObjectCounts(decode, ps[..|ps| - 1]);
    }
  }

  /**
   Every text that is accepted gives objects of supported kinds that decode to something, in numbers within the
   limits.
   */
  lemma AcceptedIsSound(k: Chars, decode: string -> Decoded, s: string, l: Limits)
    ensures Validated(k, decode, s, l).Ok? ==>
      var ps := Validated(k, decode, s, l).objects;
      && (forall p <- ps :: Acceptable(decode, p))
      && CountKeys(ps) + CountCerts(ps) == |ps|
      && l.minKeys <= CountKeys(ps) && (l.maxKeys.Some? ==> CountKeys(ps) <= l.maxKeys.value)
      && l.minCerts <= CountCerts(ps) && (l.maxCerts.Some? ==> CountCerts(ps) <= l.maxCerts.value)
  {
    ObjectsAreAcceptable(k, decode, Drop(s, k.space));
    if Validated(k, decode, s, l).Ok? {
      EveryObjectCounts(decode, Validated(k, decode, s, l).objects);
    }
  }

  // ---------- The error that escapes ----------

  /** The first match whose object is not accepted. */
  function FirstRefused(k: Chars, decode: string -> Decoded, s: string): Option<Match>
    decreases |s|
  {
    if s == "" || MatchPem(k, s).None? then None
    else if !Object(k, decode, MatchPem(k, s).value).Ok? then MatchPem(k, s)
    else FirstRefused(k, decode, Drop(MatchPem(k, s).value.next, k.space))
  }

  lemma {:induction false} ObjectsCrashIff(k: Chars, decode: string -> Decoded, s: string)
    ensures Objects(k, decode, s) == Crash <==>
      var m := FirstRefused(k, decode, s);
      m.Some? && !KindOf(k, m.value.name).Unsupported? && decode(Base64(k, Lines(k, m.value.data)).0).Raises?
    decreases |s|
  {
    if s != "" && MatchPem(k, s).Some? && Object(k, decode, MatchPem(k, s).value).Ok? {
      ObjectsCrashIff(k, decode, Drop(MatchPem(k, s).value.next, k.space));
    }
  }

  /** An error escapes iff the first object that is not accepted has a supported label and malformed base64 text. */
  lemma CrashIff(k: Chars, decode: string -> Decoded, s: string, l: Limits)
    ensures Validated(k, decode, s, l) == Crash <==>
      var m := FirstRefused(k, decode, Drop(s, k.space));
      m.Some? && !KindOf(k, m.value.name).Unsupported? && decode(Base64(k, Lines(k, m.value.data)).0).Raises?
  {
    ObjectsCrashIff(k, decode, Drop(s, k.space));
  }

  // ---------- What labels, headers and limits mean ----------

  lemma {:induction false} NothingToRemove(s: string, t: string)
    requires t != "" && |s| < |t|
    ensures Without(s, t) == s
  {
    if s != "" {
      NothingToRemove(s[1..], t);
    }
  }

  lemma {:induction false} RemovedAtEnd(a: string, t: string)
    requires t != "" && forall i | 0 <= i < |a| :: !(t <= (a + t)[i..])
    ensures Without(a + t, t) == a
  {
    if a == "" {
      assert a + t == t && t[|t|..] == "";
    } else {
      assert (a + t)[0..] == a + t && (a + t)[1..] == a[1..] + t;
      forall i | 0 <= i < |a[1..]|
        ensures !(t <= (a[1..] + t)[i..])
      {
        assert (a + t)[i + 1..] == (a[1..] + t)[i..];
      }
      RemovedAtEnd(a[1..], t);
    }
  }

  lemma StripBlank(k: Chars, alg: string)
    requires k.space(' ') && alg != "" && !k.space(alg[0]) && !k.space(alg[|alg| - 1])
    ensures Strip(k, alg + " ") == alg
  {
    var s := alg + " ";
    assert s[0] == alg[0] && s[|s| - 1] == ' ' && s[..|s| - 1] == alg;
    assert Drop(s, k.space) == s;
    assert TrimRight(s, k.space) == TrimRight(alg, k.space) == alg;
  }

  /** The label of a private key with its algorithm: a key of the type of that algorithm, if it is supported. */
  lemma AlgorithmLabel(k: Chars, alg: string)
    requires k.space(' ') && 1 <= |alg| <= 8 && !k.space(alg[0]) && !k.space(alg[|alg| - 1])
    requires forall i | 0 <= i < |alg| :: alg[i] == 'P' ==> i + 1 < |alg| && alg[i + 1] != 'R'
    ensures KindOf(k, alg + " PRIVATE KEY") ==
      if alg in KEY_TYPES then Key(KEY_TYPES[alg]) else Unsupported(UnsupportedKey)
  {
    var name, front := alg + " PRIVATE KEY", alg + " ";
    assert name == front + PRIVATE_KEY && name[|name| - |PRIVATE_KEY|..] == PRIVATE_KEY;
    NothingToRemove(name, ENCRYPTED_PRIVATE_KEY);
    forall i | 0 <= i < |front|
      ensures !(PRIVATE_KEY <= name[i..])
    {
      assert PRIVATE_KEY[0] == 'P' && PRIVATE_KEY[1] == 'R';
      assert name[i..][0] == front[i] && (i < |alg| ==> name[i..][1] == front[i + 1]);
    }
    RemovedAtEnd(front, PRIVATE_KEY);
    StripBlank(k, alg);
  }

  lemma {:induction false} RemovedWholly(t: string)
    requires t != ""
    ensures Without(t, t) == ""
  {
    RemovedAtEnd("", t);
    assert "" + t == t;
  }

  /** The labels without an algorithm. */
  lemma BareLabel(k: Chars, name: string)
    requires name == PRIVATE_KEY || name == ENCRYPTED_PRIVATE_KEY
    ensures EndsWith(name, PRIVATE_KEY) && KindOf(k, name) == Key(KEY_TYPES[""])
  {
    RemovedWholly(name);
    if name == PRIVATE_KEY {
      NothingToRemove(name, ENCRYPTED_PRIVATE_KEY);
    } else {
      assert name[|name| - |PRIVATE_KEY|..] == PRIVATE_KEY;
      NothingToRemove("", PRIVATE_KEY);
    }
  }

  /**
   An OpenSSH key is taken as encrypted iff its bytes do not begin like one without a cipher; another key if its
   label says so, or the word occurs in the text with its headers.
   */
  lemma EncryptionMarks(k: Chars, decode: string -> Decoded, m: Match)
    requires Object(k, decode, m).Ok? && Object(k, decode, m).objects[0].keyType.Some?
    ensures var p := Object(k, decode, m).objects[0];
      p.encrypted.Some? &&
      (if p.keyType == Some("ed25519")
       then (p.encrypted.value <==> !(OPENSSH_PLAIN <= decode(p.b64).bytes))
       else (p.encrypted.value <==>
               m.name == "ENCRYPTED PRIVATE KEY" || exists a, b :: m.data == a + ("ENCRYPTED" + b)))
  {
    if a, b :| m.data == a + ("ENCRYPTED" + b) {
      assert m.data[|a|..|a| + |ENCRYPTED|] == ENCRYPTED;
      assert OccursAt(m.data, ENCRYPTED, |a|);
    }
    if Contains(m.data, ENCRYPTED) {
      var i :| 0 <= i <= |m.data| && OccursAt(m.data, ENCRYPTED, i);
      assert m.data == m.data[..i] + ("ENCRYPTED" + m.data[i + |ENCRYPTED|..]);
    }
  }

  /** Headers as RFC 1421 has them: each begins with a header line, and a backslash carries on to the next line. */
  ghost predicate HeaderLines(k: Chars, lines: seq<string>, carries: bool) {
    if lines == [] then !carries
    else
      var line := Strip(k, lines[|lines| - 1]);
      if line == "" then HeaderLines(k, lines[..|lines| - 1], carries)
      else
        && carries == (line[|line| - 1] == '\\')
        && (HeaderLines(k, lines[..|lines| - 1], true) ||
            (HeaderLines(k, lines[..|lines| - 1], false) && exists i :: 0 < i < |line| - 1 && line[i] == ':'))
  }

  lemma {:induction false} HeadersAddNothing(k: Chars, lines: seq<string>, carries: bool)
    requires HeaderLines(k, lines, carries)
    ensures Base64(k, lines) == ("", carries)
  {
    if lines != [] {
      var front, line := lines[..|lines| - 1], Strip(k, lines[|lines| - 1]);
      if line == "" {
        HeadersAddNothing(k, front, carries);
      } else if HeaderLines(k, front, true) {
        HeadersAddNothing(k, front, true);
      } else {
        HeadersAddNothing(k, front, false);
        assert Header(line);
      }
    }
  }

  /** Headers, their continuations and empty lines are no part of the base64 text that follows them. */
  lemma {:induction false} HeadersAreSkipped(k: Chars, headers: seq<string>, lines: seq<string>)
    requires Sane(k) && HeaderLines(k, headers, false) && forall l <- lines :: Base64Line(l)
    ensures Base64(k, headers + lines) == (Flat(lines), false)
    decreases |lines|
  {
    if lines == [] {
      assert headers + lines == headers;
      HeadersAddNothing(k, headers, false);
    } else {
      var line := lines[|lines| - 1];
      assert line in lines && (headers + lines)[..|headers + lines| - 1] == headers + lines[..|lines| - 1];
      HeadersAreSkipped(k, headers, lines[..|lines| - 1]);
      StripLine(k, line);
      assert line == "" ==> Flat(lines[..|lines| - 1]) + line == Flat(lines[..|lines| - 1]);
    }
  }

  lemma {:induction false} ExpectedIsAcceptable(k: Chars, decode: string -> Decoded, items: seq<Item>, eol: string)
    requires forall it <- items :: Printable(k, decode, it)
    ensures |AllExpected(k, decode, items, eol)| == |items|
    ensures forall p <- AllExpected(k, decode, items, eol) :: Acceptable(decode, p)
  {
    KindsDiffer();
    if items != [] {
      assert Printable(k, decode, items[0]) && forall it <- items[1..] :: it in items;
      ExpectedIsAcceptable(k, decode, items[1..], eol);
    }
  }

  /**
   Printed objects are accepted iff their numbers are within the limits; if not, keys are complained about
   before certificates, and too few before too many.
   */
  lemma PrintedIsAcceptedIff(k: Chars, decode: string -> Decoded, items: seq<Item>, eol: string, l: Limits)
    requires Sane(k) && LineBreak(k, eol) && forall it <- items :: Printable(k, decode, it)
    ensures var ps, out := AllExpected(k, decode, items, eol), Validated(k, decode, Print(items, eol, ""), l);
      var keys, certs := CountKeys(ps), CountCerts(ps);
      && (out == Ok(ps) <==>
            && l.minKeys <= keys && (l.maxKeys == None || keys <= l.maxKeys.value)
            && l.minCerts <= certs && (l.maxCerts == None || certs <= l.maxCerts.value))
      && (out == Invalid(TooFewKeys) <==> keys < l.minKeys)
      && (out == Invalid(TooManyKeys) <==> l.minKeys <= keys && l.maxKeys.Some? && l.maxKeys.value < keys)
      && (out == Invalid(TooFewCerts) || out == Invalid(TooManyCerts) ==>
            l.minKeys <= keys && (l.maxKeys == None || keys <= l.maxKeys.value))
      && (out == Invalid(TooFewCerts) ==> certs < l.minCerts)
      && (out == Invalid(TooManyCerts) ==> l.minCerts <= certs && l.maxCerts.Some? && l.maxCerts.value < certs)
      && keys + certs == |items|
  {
    RoundTrip(k, decode, items, "", eol, "", l);
    assert "" + Print(items, eol, "") == Print(items, eol, "");
    ExpectedIsAcceptable(k, decode, items, eol);
    EveryObjectCounts(decode, AllExpected(k, decode, items, eol));
  }
}
