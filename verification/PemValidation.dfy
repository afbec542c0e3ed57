/**
 `validate_pem`: a text is cut into PEM objects by one regular expression, each object's label and
 base64 text are checked, and the numbers of keys and certificates are compared with limits.
 */
module PemValidation {
  import opened Wrappers

  /** `space`: what `\s` and `strip` take for white space; `eol`: where `splitlines` breaks a line. */
  datatype Chars = Chars(space: char -> bool, eol: char -> bool)

  /** `base64.b64decode`: it raises, though not an error that is caught, or gives bytes. */
  datatype Decoded = Raises | Bytes(bytes: seq<int>)

  datatype Limits = Limits(minKeys: int, maxKeys: Option<int>, minCerts: int, maxCerts: Option<int>)

  datatype Reason =
    | NoMatch
    | UnsupportedKey
    | UnsupportedType
    | NotBase64
    | TooFewKeys
    | TooManyKeys
    | TooFewCerts
    | TooManyCerts

  /**
   `kind` is the label, except that all private keys are of one kind; the type and whether it is encrypted are a
   key's.
   */
  datatype Pem = Pem(kind: string, keyType: Option<string>, encrypted: Option<bool>, b64: string)

  datatype Outcome = Ok(objects: seq<Pem>) | Invalid(reason: Reason) | Crash

  const PRIVATE_KEY: string := "PRIVATE KEY"
  const ENCRYPTED_PRIVATE_KEY: string := "ENCRYPTED PRIVATE KEY"
  const CERTIFICATE: string := "CERTIFICATE"

  const KEY_TYPES: map<string, string> :=
    map["RSA" := "rsa", "DSA" := "dsa", "EC" := "ecdsa", "OPENSSH" := "ed25519", "" := "rsa1"]

  // ---------- Prefixes ----------

  predicate All(f: char -> bool, s: string) {
    forall i | 0 <= i < |s| :: f(s[i])
  }

  function Take(s: string, f: char -> bool): (t: string)
    ensures All(f, t)
  {
    if s == "" || !f(s[0]) then "" else [s[0]] + Take(s[1..], f)
  }

  function Drop(s: string, f: char -> bool): (t: string)
    ensures |t| <= |s| && (t != "" ==> !f(t[0]))
  {
    if s == "" || !f(s[0]) then s else Drop(s[1..], f)
  }

  lemma {:induction false} TakeAndDrop(a: string, b: string, f: char -> bool)
    requires All(f, a) && (b == "" || !f(b[0]))
    ensures Take(a + b, f) == a && Drop(a + b, f) == b
  {
    if a == "" {
      assert a + b == b;
    } else {
      assert (a + b)[1..] == a[1..] + b;
      TakeAndDrop(a[1..], b, f);
    }
  }

  function Eat(s: string, t: string): (r: Option<string>)
    ensures r.Some? ==> |r.value| + |t| == |s|
  {
    if t <= s then Some(s[|t|..]) else None
  }

  lemma EatPrefix(t: string, s: string)
    ensures Eat(t + s, t) == Some(s)
  {
  }

  predicate Dash(c: char) {
    c == '-'
  }

  predicate Blank(c: char) {
    c == ' '
  }

  predicate LabelChar(c: char) {
    'A' <= c <= 'Z' || c == ' '
  }

  function TrimRight(s: string, f: char -> bool): string {
    if s == "" || !f(s[|s| - 1]) then s else TrimRight(s[..|s| - 1], f)
  }

  function Strip(k: Chars, s: string): string {
    TrimRight(Drop(s, k.space), k.space)
  }

  // ---------- The regular expression ----------

  /** The end line, if `s` begins with it: what follows. */
  function Tail(s: string, dashes: string, name: string): (r: Option<string>)
    ensures r.Some? ==> |r.value| + 2 * |dashes| <= |s|
  {
    var a := Eat(s, dashes);
    if a.None? then None else
    var b := Eat(Drop(a.value, Blank), "END ");
    if b.None? then None else
    var c := Eat(b.value, name);
    if c.None? then None else Eat(Drop(c.value, Blank), dashes)
  }

  /** The shortest non-empty beginning of `s` that an end line follows, and what follows that. */
  function UpToTail(k: Chars, s: string, dashes: string, name: string): (r: Option<(string, string)>)
    ensures r.Some? ==> |r.value.1| < |s|
  {
    if s == "" then None else
    var rest := Tail(Drop(s[1..], k.space), dashes, name);
    if rest.Some? then Some(([s[0]], rest.value)) else
    var more := UpToTail(k, s[1..], dashes, name);
    if more.None? then None else Some(([s[0]] + more.value.0, more.value.1))
  }

  /**
   After the first line: white space, text, white space and end line; white space is given back if there is no text.
   */
  function Body(k: Chars, s: string, dashes: string, name: string): (r: Option<(string, string)>)
    requires dashes != ""
    ensures r.Some? ==> |r.value.1| < |s|
  {
    var text := Drop(s, k.space);
    var found := UpToTail(k, text, dashes, name);
    if found.Some? then found
    else if |text| < |s| && Tail(text, dashes, name).Some? then
      Some(([s[|s| - |text| - 1]], Tail(text, dashes, name).value))
    else None
  }

  /** `$` also matches before a line feed that ends the text. */
  function UpToEnd(s: string): (t: string)
    ensures |t| <= |s|
  {
    if s != "" && s[|s| - 1] == '\n' then s[..|s| - 1] else s
  }

  function Label(run: string): string
    requires run != ""
  {
    var trimmed := TrimRight(run, Blank);
    if trimmed == "" then run[..1] else trimmed
  }

  datatype Match = Match(name: string, data: string, next: string)

  function MatchPem(k: Chars, s: string): (m: Option<Match>)
    ensures m.Some? ==> |m.value.next| < |s|
  {
    var dashes, a := Take(s, Dash), Drop(s, Dash);
    if |dashes| < 4 then None else
    var b := Eat(Drop(a, Blank), "BEGIN ");
    if b.None? then None else
    var run, c := Take(b.value, LabelChar), Drop(b.value, LabelChar);
    if run == "" then None else
    var d := Eat(c, dashes);
    if d.None? then None else
    var body := Body(k, d.value, dashes, Label(run));
    if body.None? then None else Some(Match(Label(run), body.value.0, UpToEnd(body.value.1)))
  }

  // ---------- Labels ----------

  /** `s.replace(t, '')`. */
  function Without(s: string, t: string): string
    requires t != ""
    decreases |s|
  {
    if s == "" then ""
    else if t <= s then Without(s[|t|..], t)
    else [s[0]] + Without(s[1..], t)
  }

  predicate EndsWith(s: string, t: string) {
    |t| <= |s| && s[|s| - |t|..] == t
  }

  datatype Kind = Key(keyType: string) | Certificate | Unsupported(reason: Reason)

  function KindOf(k: Chars, name: string): Kind {
    if EndsWith(name, PRIVATE_KEY) then
      var keyType := Strip(k, Without(Without(name, ENCRYPTED_PRIVATE_KEY), PRIVATE_KEY));
      if keyType in KEY_TYPES then Key(KEY_TYPES[keyType]) else Unsupported(UnsupportedKey)
    else if name == CERTIFICATE then Certificate
    else Unsupported(UnsupportedType)
  }

  // ---------- Base64 text ----------

  function NotEol(k: Chars): char -> bool {
    c => !k.eol(c)
  }

  /** `splitlines`, with an empty line more where one break is two characters. */
  function Lines(k: Chars, s: string): seq<string>
    decreases |s|
  {
    if s == "" then []
    else
      var rest := Drop(s, NotEol(k));
      [Take(s, NotEol(k))] + (if rest == "" then [] else Lines(k, rest[1..]))
  }

  /** A header line has a colon with something on both sides. */
  predicate Header(line: string) {
    exists i :: 1 <= i < |line| - 1 && line[i] == ':'
  }

  predicate Continues(line: string) {
    line != "" && line[|line| - 1] == '\\'
  }

  /** The lines that are neither empty, nor headers, nor continue a header, joined; and the state after them. */
  function Base64(k: Chars, lines: seq<string>): (string, bool) {
    if lines == [] then ("", false)
    else
      var (text, continues) := Base64(k, lines[..|lines| - 1]);
      var line := Strip(k, lines[|lines| - 1]);
      if line == "" then (text, continues)
      else if continues || Header(line) then (text, Continues(line))
      else (text + line, false)
  }

  // ---------- Encryption ----------

  const OPENSSH: string := "ed25519"
  const ENCRYPTED: string := "ENCRYPTED"

  /**
   How an OpenSSH key begins that has no cipher: `openssh-key-v1`, a null byte, and the four-byte length of `none`.
   */
  const OPENSSH_PLAIN: seq<int> :=
    [111, 112, 101, 110, 115, 115, 104, 45, 107, 101, 121, 45, 118, 49, 0, 0, 0, 0, 4, 110, 111, 110, 101]

  predicate OccursAt(s: string, t: string, i: nat) {
    i + |t| <= |s| && s[i..i + |t|] == t
  }

  predicate Contains(s: string, t: string) {
    exists i :: 0 <= i <= |s| && OccursAt(s, t, i)
  }

  /** Read off the decoded bytes, the label, or the text with its headers. */
  predicate IsEncrypted(keyType: string, name: string, data: string, bytes: seq<int>) {
    if keyType == OPENSSH then !(OPENSSH_PLAIN <= bytes)
    else name == ENCRYPTED_PRIVATE_KEY || Contains(data, ENCRYPTED)
  }

  // ---------- The whole text ----------

  function Object(k: Chars, decode: string -> Decoded, m: Match): (o: Outcome)
    ensures o.Ok? ==> |o.objects| == 1
    ensures o.Ok? && o.objects[0].keyType.Some? ==> o.objects[0].kind == PRIVATE_KEY
    ensures o.Ok? && o.objects[0].keyType.None? ==> o.objects[0].kind == CERTIFICATE
  {
    var kind := KindOf(k, m.name);
    if kind.Unsupported? then Invalid(kind.reason)
    else
      var b64 := Base64(k, Lines(k, m.data)).0;
      match decode(b64)
      case Raises => Crash
      case Bytes(bytes) =>
        if bytes == [] then Invalid(NotBase64)
        else if kind.Key? then
          Ok([Pem(PRIVATE_KEY, Some(kind.keyType), Some(IsEncrypted(kind.keyType, m.name, m.data, bytes)), b64)])
        else Ok([Pem(m.name, None, None, b64)])
  }

  /** What the objects already found add to the outcome of the rest. */
  function After(ps: seq<Pem>, rest: Outcome): Outcome {
    match rest
    case Ok(more) => Ok(ps + more)
    case other => other
  }

  /** The objects of a text that begins with no white space. */
  function Objects(k: Chars, decode: string -> Decoded, s: string): Outcome
    decreases |s|
  {
    if s == "" then Ok([])
    else
      var m := MatchPem(k, s);
      if m.None? then Invalid(NoMatch)
      else
        var first := Object(k, decode, m.value);
        if !first.Ok? then first
        else After(first.objects, Objects(k, decode, Drop(m.value.next, k.space)))
  }

  function CountKeys(ps: seq<Pem>): nat {
    if ps == [] then 0 else CountKeys(ps[..|ps| - 1]) + (if ps[|ps| - 1].kind == PRIVATE_KEY then 1 else 0)
  }

  function CountCerts(ps: seq<Pem>): nat {
    if ps == [] then 0 else CountCerts(ps[..|ps| - 1]) + (if ps[|ps| - 1].kind == CERTIFICATE then 1 else 0)
  }

  function Limited(ps: seq<Pem>, l: Limits): Outcome {
    if CountKeys(ps) < l.minKeys then Invalid(TooFewKeys)
    else if l.maxKeys.Some? && CountKeys(ps) > l.maxKeys.value then Invalid(TooManyKeys)
    else if CountCerts(ps) < l.minCerts then Invalid(TooFewCerts)
    else if l.maxCerts.Some? && CountCerts(ps) > l.maxCerts.value then Invalid(TooManyCerts)
    else Ok(ps)
  }

  function Validated(k: Chars, decode: string -> Decoded, s: string, l: Limits): Outcome {
    match Objects(k, decode, Drop(s, k.space))
    case Ok(ps) => Limited(ps, l)
    case other => other
  }

  method CollectBase64(k: Chars, data: string) returns (base64Data: string)
    ensures base64Data == Base64(k, Lines(k, data)).0
  {
    base64Data := "";
    var lineContinues := false;
    var lines := Lines(k, data);
    for i := 0 to |lines|
      invariant (base64Data, lineContinues) == Base64(k, lines[..i])
    {
      assert lines[..i + 1][..i] == lines[..i];
      var line := Strip(k, lines[i]);
      if line == "" {
        continue;
      }
      if lineContinues || Header(line) {
        lineContinues := Continues(line);
        continue;
      }
      base64Data := base64Data + line;
    }
    assert lines[..|lines|] == lines;
  }

  method CheckObject(k: Chars, decode: string -> Decoded, m: Match) returns (outcome: Outcome)
    ensures outcome == Object(k, decode, m)
  {
    var kind := KindOf(k, m.name);
    if kind.Unsupported? {
      return Invalid(kind.reason);
    }
    var base64Data := CollectBase64(k, m.data);
    var decoded := decode(base64Data);
    if decoded.Raises? {
      return Crash;
    }
    if decoded.bytes == [] {
      return Invalid(NotBase64);
    }
    if kind.Certificate? {
      return Ok([Pem(m.name, None, None, base64Data)]);
    }
    var encrypted := Contains(m.data, ENCRYPTED);
    if kind.keyType == OPENSSH {
      encrypted := !(OPENSSH_PLAIN <= decoded.bytes);
    } else if m.name == ENCRYPTED_PRIVATE_KEY {
      encrypted := true;
    }
    return Ok([Pem(PRIVATE_KEY, Some(kind.keyType), Some(encrypted), base64Data)]);
  }

  method CheckLimits(pemObjects: seq<Pem>, keyCount: nat, certCount: nat, l: Limits) returns (outcome: Outcome)
    requires keyCount == CountKeys(pemObjects) && certCount == CountCerts(pemObjects)
    ensures outcome == Limited(pemObjects, l)
  {
    if keyCount < l.minKeys {
      return Invalid(TooFewKeys);
    } else if l.maxKeys.Some? && keyCount > l.maxKeys.value {
      return Invalid(TooManyKeys);
    }
    if certCount < l.minCerts {
      return Invalid(TooFewCerts);
    } else if l.maxCerts.Some? && certCount > l.maxCerts.value {
      return Invalid(TooManyCerts);
    }
    return Ok(pemObjects);
  }

  lemma KindsDiffer()
    ensures PRIVATE_KEY != CERTIFICATE
  {
    assert PRIVATE_KEY[0] == 'P' && CERTIFICATE[0] == 'C';
  }

  lemma CountOneMore(ps: seq<Pem>, p: Pem)
    requires p.kind == (if p.keyType.Some? then PRIVATE_KEY else CERTIFICATE)
    ensures CountKeys(ps + [p]) == CountKeys(ps) + (if p.keyType.Some? then 1 else 0)
    ensures CountCerts(ps + [p]) == CountCerts(ps) + (if p.keyType.Some? then 0 else 1)
  {
    KindsDiffer();
    assert (ps + [p])[..|ps|] == ps;
  }

  lemma AfterOneMore(ps: seq<Pem>, p: Pem, rest: Outcome)
    ensures After(ps, After([p], rest)) == After(ps + [p], rest)
  {
    if rest.Ok? {
      assert ps + ([p] + rest.objects) == ps + [p] + rest.objects;
    }
  }

  /** The loop; it ends because each match takes something away. */
  method FindObjects(k: Chars, decode: string -> Decoded, text: string)
      returns (outcome: Outcome, keyCount: nat, certCount: nat)
    ensures outcome == Objects(k, decode, text)
    ensures outcome.Ok? ==> keyCount == CountKeys(outcome.objects) && certCount == CountCerts(outcome.objects)
  {
    var pemObjects: seq<Pem> := [];
    keyCount, certCount := 0, 0;
    var data := text;
    while data != ""
      invariant keyCount == CountKeys(pemObjects) && certCount == CountCerts(pemObjects)
      invariant Objects(k, decode, text) == After(pemObjects, Objects(k, decode, data))
      decreases |data|
    {
      var found := MatchPem(k, data);
      if found.None? {
        assert Objects(k, decode, data) == Invalid(NoMatch);
        return Invalid(NoMatch), 0, 0;
      }
      var checked := CheckObject(k, decode, found.value);
      if !checked.Ok? {
        assert Objects(k, decode, data) == checked;
        return checked, 0, 0;
      }
      var pem := checked.objects[0];
      assert checked.objects == [pem];
      if pem.keyType.Some? {
        keyCount := keyCount + 1;
      } else {
        certCount := certCount + 1;
      }
      data := Drop(found.value.next, k.space);
      CountOneMore(pemObjects, pem);
      AfterOneMore(pemObjects, pem, Objects(k, decode, data));
      pemObjects := pemObjects + [pem];
    }
    outcome := Ok(pemObjects);
  }

  /** `validate_pem`. */
  method ValidatePem(k: Chars, decode: string -> Decoded, text: string, l: Limits) returns (outcome: Outcome)
    ensures outcome == Validated(k, decode, text, l)
  {
    var keyCount, certCount;
    outcome, keyCount, certCount := FindObjects(k, decode, Drop(text, k.space));
    if outcome.Ok? {
      outcome := CheckLimits(outcome.objects, keyCount, certCount, l);
    }
  }
}
