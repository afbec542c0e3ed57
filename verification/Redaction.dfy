/**
 `UriCleaner.remove_sensitive`: user names and passwords in the URIs of a text are replaced in place,
 from left to right. The loop ends although replacements can be longer than what they replace.
 */
module Redaction {
  import opened Wrappers

  /** The character classes of the regular expression, and the marker that replaces what is sensitive. */
  datatype Classes = Classes(space: char -> bool, word: char -> bool, marker: string)

  predicate Solid(k: Classes, s: string) {
    forall i | 0 <= i < |s| :: !k.space(s[i])
  }

  ghost predicate Sane(k: Classes) {
    && !k.space(':') && !k.word(':')
    && Solid(k, k.marker) && k.marker != ""
    && forall c :: k.word(c) ==> !k.space(c)
  }

  // ---------- The regular expression ----------

  /** One to twenty word characters, a colon, and at least one character that is not a space. */
  predicate HeadAt(k: Classes, s: string, i: nat, n: nat) {
    && 1 <= n <= 20 && i + n + 1 < |s|
    && (forall j | i <= j < i + n :: k.word(s[j]))
    && s[i + n] == ':' && !k.space(s[i + n + 1])
  }

  predicate MatchesAt(k: Classes, s: string, i: nat) {
    exists n :: 1 <= n <= 20 && HeadAt(k, s, i, n)
  }

  function Search(k: Classes, s: string, from: nat): (i: Option<nat>)
    ensures i.Some? ==> from <= i.value < |s| && MatchesAt(k, s, i.value)
    decreases |s| - from
  {
    if from >= |s| then None
    else if MatchesAt(k, s, from) then Some(from)
    else Search(k, s, from + 1)
  }

  /** The end of the run of characters, from `i` on, that are not spaces. */
  function RunEnd(k: Classes, s: string, i: nat): (e: nat)
    requires i <= |s|
    ensures i <= e <= |s|
    decreases |s| - i
  {
    if i == |s| || k.space(s[i]) then i else RunEnd(k, s, i + 1)
  }

  lemma {:induction false} RunIsSolid(k: Classes, s: string, i: nat)
    requires i <= |s|
    ensures var e := RunEnd(k, s, i); Solid(k, s[i..e]) && (e < |s| ==> k.space(s[e]))
    decreases |s| - i
  {
    if i < |s| && !k.space(s[i]) {
      RunIsSolid(k, s, i + 1);
      var e := RunEnd(k, s, i + 1);
      assert s[i..e] == [s[i]] + s[i + 1..e];
    }
  }

  lemma MatchIsSolid(k: Classes, s: string, i: nat)
    requires Sane(k) && i < |s| && MatchesAt(k, s, i)
    ensures var e := RunEnd(k, s, i); e >= i + 3 && ':' in s[i..e]
  {
    var n :| 1 <= n <= 20 && HeadAt(k, s, i, n);
    var e := RunEnd(k, s, i);
    RunIsSolid(k, s, i);
    assert forall j | i <= j <= i + n + 1 :: !k.space(s[j]);
    assert s[i..e][n] == ':';
  }

  // ---------- The URL splitter and string replacement ----------

  /** The splitter is an oracle: it refuses a URI, or names its user, password and network location. */
  datatype Split = Invalid | Parts(username: Option<string>, password: Option<string>, netloc: string)

  predicate Truthy(s: Option<string>) {
    s.Some? && s.value != ""
  }

  predicate HasAt(s: string, t: string, i: nat) {
    i + |t| <= |s| && s[i..i + |t|] == t
  }

  predicate First(s: string, t: string, i: nat) {
    HasAt(s, t, i) && forall j | 0 <= j < i :: !HasAt(s, t, j)
  }

  /** `s.find(t)`. */
  function FirstIndex(s: string, t: string): (r: Option<nat>)
    ensures r.Some? ==> First(s, t, r.value)
  {
    if exists i :: 0 <= i <= |s| && First(s, t, i) then
      var i :| 0 <= i <= |s| && First(s, t, i);
      Some(i)
    else None
  }

  /** `s.replace(t, marker, count)` for a non-empty `t`. */
  function Replace(k: Classes, s: string, t: string, count: nat): (r: string)
    requires t != ""
    ensures s != "" && k.marker != "" ==> r != ""
    decreases count
  {
    var i := FirstIndex(s, t);
    if count == 0 || i.None? then s
    else s[..i.value] + k.marker + Replace(k, s[i.value + |t|..], t, count - 1)
  }

  /** `netloc.split(':')` as two strings; any other number of parts raises. */
  function TwoParts(netloc: string): Option<(string, string)> {
    var i := FirstIndex(netloc, ":");
    if i.None? || ':' in netloc[i.value + 1..] then None else Some((netloc[..i.value], netloc[i.value + 1..]))
  }

  datatype Credentials = Nothing | ValueError | Found(username: Option<string>, password: Option<string>)

  function CredentialsOf(split: string -> Split, uri: string): Credentials {
    match split(uri)
    case Invalid => ValueError
    case Parts(username, password, netloc) =>
      if Truthy(username) || Truthy(password) then Found(username, password)
      else if ':' !in netloc then Nothing
      else match TwoParts(netloc)
        case None => ValueError
        case Some((u, p)) => Found(Some(u), Some(p))
  }

  function Redacted(k: Classes, uri: string, username: Option<string>, password: Option<string>): (r: string)
    ensures uri != "" && k.marker != "" ==> r != ""
  {
    var s := if Truthy(username) then Replace(k, uri, username.value, 1) else uri;
    if Truthy(password) then Replace(k, s, password.value, 2) else s
  }

  /** What becomes of one matched URI: nothing, or a new text. */
  function Rewrite(k: Classes, split: string -> Split, uri: string): Option<string> {
    match CredentialsOf(split, uri)
    case Nothing => None
    case ValueError => Some(k.marker)
    case Found(username, password) => Some(Redacted(k, uri, username, password))
  }

  // ---------- The loop ----------

  lemma SolidConcat(k: Classes, a: string, b: string)
    requires Solid(k, a) && Solid(k, b)
    ensures Solid(k, a + b)
  {
  }

  lemma SolidAround(k: Classes, s: string, i: nat, b: string)
    requires Sane(k) && Solid(k, s) && i <= |s| && Solid(k, b)
    ensures Solid(k, s[..i] + k.marker + b)
  {
    SolidConcat(k, s[..i], k.marker);
    SolidConcat(k, s[..i] + k.marker, b);
  }

  lemma {:induction false} ReplaceIsSolid(k: Classes, s: string, t: string, count: nat)
    requires Sane(k) && Solid(k, s) && t != ""
    ensures Solid(k, Replace(k, s, t, count))
    decreases count
  {
    var found := FirstIndex(s, t);
    if count == 0 || found.None? {
      assert Replace(k, s, t, count) == s;
    } else {
      var i, rest := found.value, s[found.value + |t|..];
      ReplaceIsSolid(k, rest, t, count - 1);
      SolidAround(k, s, i, Replace(k, rest, t, count - 1));
      assert Replace(k, s, t, count) == s[..i] + k.marker + Replace(k, rest, t, count - 1);
    }
  }

  lemma RedactedIsSolid(k: Classes, uri: string, username: Option<string>, password: Option<string>)
    requires Sane(k) && Solid(k, uri) && uri != ""
    ensures Solid(k, Redacted(k, uri, username, password)) && Redacted(k, uri, username, password) != ""
  {
    if Truthy(username) {
      ReplaceIsSolid(k, uri, username.value, 1);
    }
    var s := if Truthy(username) then Replace(k, uri, username.value, 1) else uri;
    if Truthy(password) {
      ReplaceIsSolid(k, s, password.value, 2);
    }
  }

  lemma RewriteIsSolid(k: Classes, split: string -> Split, uri: string)
    requires Sane(k) && Solid(k, uri) && uri != "" && Rewrite(k, split, uri).Some?
    ensures Solid(k, Rewrite(k, split, uri).value) && Rewrite(k, split, uri).value != ""
  {
    var c := CredentialsOf(split, uri);
    if c.Found? {
      RedactedIsSolid(k, uri, c.username, c.password);
    }
  }

  /** The text and the index after a match was left alone or rewritten; `clamp` keeps the index inside the text. */
  function Edited(text: string, index: nat, start: nat, end: nat, rewritten: Option<string>, clamp: bool): (string, nat)
    requires start <= end <= |text| && (rewritten.Some? ==> rewritten.value != "")
  {
    match rewritten
    case None => (text, index + (end - start))
    case Some(w) => (text[..start] + w + text[end..], start + |w| - if clamp && end == |text| then 1 else 0)
  }

  /** One round of the loop on the text and the index; none when nothing matches any more. */
  function Step(k: Classes, split: string -> Split, text: string, index: nat): (r: Option<(string, nat)>)
    requires Sane(k)
    ensures r.Some? ==> |r.value.0| - r.value.1 < |text| - index
  {
    var i := Search(k, text, index);
    if i.None? then None
    else
      MatchIsSolid(k, text, i.value);
      var e := RunEnd(k, text, i.value);
      var uri := text[i.value..e];
      Some(Edited(text, index, i.value, e, Rewrite(k, split, uri), CredentialsOf(split, uri).Found?))
  }

  function Clean(k: Classes, split: string -> Split, text: string, index: nat): string
    requires Sane(k)
    decreases |text| - index
  {
    match Step(k, split, text, index)
    case None => text
    case Some((text', index')) => Clean(k, split, text', index')
  }

  /** The found name and password are replaced in the match, and the index moves past it. */
  method Redact(k: Classes, text: string, start: nat, end: nat, username: Option<string>, password: Option<string>)
    returns (redacted: string, textIndex: nat)
    requires start < end <= |text|
    requires k.marker != ""
    ensures var w := Redacted(k, text[start..end], username, password);
      redacted == text[..start] + w + text[end..] && textIndex == start + |w| - if end == |text| then 1 else 0
    ensures textIndex < |redacted|
  {
    var uriStr := text[start..end];
    if Truthy(username) {
      uriStr := Replace(k, uriStr, username.value, 1);
    }
    if Truthy(password) {
      uriStr := Replace(k, uriStr, password.value, 2);
    }
    var t := text[..start] + uriStr;
    textIndex := |t|;
    if end < |text| {
      t := t + text[end..];
    }
    redacted := t;
    if textIndex >= |redacted| {
      textIndex := |redacted| - 1;
    }
  }

  lemma StepAtMatch(k: Classes, split: string -> Split, text: string, index: nat, start: nat, end: nat)
    requires Sane(k) && Search(k, text, index) == Some(start) && end == RunEnd(k, text, start)
    ensures start < end
    ensures var uri := text[start..end];
      Step(k, split, text, index) ==
      Some(Edited(text, index, start, end, Rewrite(k, split, uri), CredentialsOf(split, uri).Found?))
  {
    MatchIsSolid(k, text, start);
  }

  /** What a round makes of a match. */
  method Round(k: Classes, split: string -> Split, text: string, index: nat, start: nat, end: nat)
    returns (redacted: string, textIndex: nat)
    requires start < end <= |text| && k.marker != ""
    ensures var uri := text[start..end];
      (redacted, textIndex) ==
      Edited(text, index, start, end, Rewrite(k, split, uri), CredentialsOf(split, uri).Found?)
  {
    var uri := text[start..end];
    match CredentialsOf(split, uri) {
      case Nothing => redacted, textIndex := text, index + |uri|;
      case ValueError => redacted, textIndex := text[..start] + k.marker + text[end..], start + |k.marker|;
      case Found(username, password) => redacted, textIndex := Redact(k, text, start, end, username, password);
    }
  }

  // ---------- What is preserved ----------

  datatype Piece = Gap(c: char) | Token(s: string)

  /** A text as its single spaces and its maximal runs of other characters. */
  function Pieces(k: Classes, s: string): seq<Piece>
    decreases |s|
  {
    if s == "" then []
    else if k.space(s[0]) then [Gap(s[0])] + Pieces(k, s[1..])
    else
      var e := RunEnd(k, s, 0);
      assert e > 0;
      [Token(s[..e])] + Pieces(k, s[e..])
  }

  /** Spaces stay, tokens stay tokens, and a token without a colon stays as it is. */
  predicate KeptPiece(p: Piece, q: Piece) {
    match p
    case Gap(c) => q == p
    case Token(s) => q.Token? && (':' !in s ==> q == p)
  }

  predicate SameShape(k: Classes, s: string, t: string) {
    var ps, qs := Pieces(k, s), Pieces(k, t);
    |ps| == |qs| && forall i | 0 <= i < |ps| :: KeptPiece(ps[i], qs[i])
  }

  lemma ShapeReflexive(k: Classes, s: string)
    ensures SameShape(k, s, s)
  {
  }

  lemma ShapeTransitive(k: Classes, s: string, t: string, u: string)
    requires SameShape(k, s, t) && SameShape(k, t, u)
    ensures SameShape(k, s, u)
  {
    var ps, qs, rs := Pieces(k, s), Pieces(k, t), Pieces(k, u);
    forall i | 0 <= i < |ps|
      ensures KeptPiece(ps[i], rs[i])
    {
      assert KeptPiece(ps[i], qs[i]) && KeptPiece(qs[i], rs[i]);
    }
  }

  lemma {:induction false} RunEndOfSolid(k: Classes, a: string, b: string, i: nat)
    requires Solid(k, a) && i <= |a| && (b == "" || k.space(b[0]))
    ensures RunEnd(k, a + b, i) == |a|
    decreases |a| - i
  {
    if i < |a| {
      RunEndOfSolid(k, a, b, i + 1);
    }
  }

  lemma {:induction false} RunEndInPrefix(k: Classes, a: string, b: string, i: nat)
    requires i <= |a| && RunEnd(k, a, i) < |a|
    ensures RunEnd(k, a + b, i) == RunEnd(k, a, i)
    decreases |a| - i
  {
    if i < |a| && !k.space(a[i]) {
      RunEndInPrefix(k, a, b, i + 1);
    }
  }

  lemma SolidFirstPiece(k: Classes, a: string, b: string)
    requires Solid(k, a) && a != "" && (b == "" || k.space(b[0]))
    ensures Pieces(k, a + b) == [Token(a)] + Pieces(k, b)
  {
    RunEndOfSolid(k, a, b, 0);
    assert (a + b)[..|a|] == a && (a + b)[|a|..] == b;
  }

  lemma SameHead(k: Classes, s: string, t: string, p: seq<Piece>, q: seq<Piece>, s': string, t': string)
    requires Pieces(k, s) == p + Pieces(k, s') && Pieces(k, t) == q + Pieces(k, t')
    requires |p| == |q| == 1 && KeptPiece(p[0], q[0]) && SameShape(k, s', t')
    ensures SameShape(k, s, t)
  {
  }

  /** The first token ends inside `a`, so what follows `a` does not matter to it. */
  lemma FirstTokenInPrefix(k: Classes, a: string, b: string)
    requires a != "" && !k.space(a[0]) && RunEnd(k, a, 0) < |a|
    ensures var e := RunEnd(k, a, 0); e > 0 && Pieces(k, a + b) == [Token(a[..e])] + Pieces(k, a[e..] + b)
  {
    var e := RunEnd(k, a, 0);
    RunEndInPrefix(k, a, b, 0);
    assert (a + b)[..e] == a[..e] && (a + b)[e..] == a[e..] + b;
  }

  lemma FirstGap(k: Classes, a: string, b: string)
    requires a != "" && k.space(a[0])
    ensures Pieces(k, a + b) == [Gap(a[0])] + Pieces(k, a[1..] + b)
  {
    assert (a + b)[1..] == a[1..] + b;
  }

  /** Both texts begin with one token, which held a colon before. */
  lemma ShapeOfOneToken(k: Classes, m: string, m': string, post: string)
    requires Solid(k, m) && Solid(k, m') && m != "" && m' != "" && ':' in m
    requires post == "" || k.space(post[0])
    ensures SameShape(k, m + post, m' + post)
  {
    SolidFirstPiece(k, m, post);
    SolidFirstPiece(k, m', post);
    ShapeReflexive(k, post);
    SameHead(k, m + post, m' + post, [Token(m)], [Token(m')], post, post);
  }

  lemma ShapeInsideToken(k: Classes, pre: string, m: string, m': string, post: string)
    requires Solid(k, pre) && Solid(k, m) && Solid(k, m') && m != "" && m' != "" && ':' in m
    requires post == "" || k.space(post[0])
    ensures SameShape(k, pre + (m + post), pre + (m' + post))
  {
    SolidConcat(k, pre, m);
    SolidConcat(k, pre, m');
    assert (pre + m)[|pre|..] == m;
    ShapeOfOneToken(k, pre + m, pre + m', post);
    assert pre + (m + post) == (pre + m) + post && pre + (m' + post) == (pre + m') + post;
  }

  /** Replacing the solid end of a token, which holds a colon, by something solid keeps the shape. */
  lemma {:induction false} ShapeThroughReplacement(k: Classes, pre: string, m: string, m': string, post: string)
    requires Solid(k, m) && Solid(k, m') && m != "" && m' != "" && ':' in m
    requires post == "" || k.space(post[0])
    ensures SameShape(k, pre + (m + post), pre + (m' + post))
    decreases |pre|
  {
    var r, r' := m + post, m' + post;
    if pre == "" {
      assert pre + r == r && pre + r' == r';
      ShapeOfOneToken(k, m, m', post);
    } else if k.space(pre[0]) {
      ShapeThroughReplacement(k, pre[1..], m, m', post);
      FirstGap(k, pre, r);
      FirstGap(k, pre, r');
      SameHead(k, pre + r, pre + r', [Gap(pre[0])], [Gap(pre[0])], pre[1..] + r, pre[1..] + r');
    } else if RunEnd(k, pre, 0) < |pre| {
      var e := RunEnd(k, pre, 0);
      FirstTokenInPrefix(k, pre, r);
      FirstTokenInPrefix(k, pre, r');
      ShapeThroughReplacement(k, pre[e..], m, m', post);
      SameHead(k, pre + r, pre + r', [Token(pre[..e])], [Token(pre[..e])], pre[e..] + r, pre[e..] + r');
    } else {
      RunIsSolid(k, pre, 0);
      assert pre[0..|pre|] == pre;
      ShapeInsideToken(k, pre, m, m', post);
    }
  }

  lemma ShapeAfterMatch(k: Classes, original: string, text: string, start: nat, end: nat, rewritten: string)
    requires start < end <= |text| && Solid(k, text[start..end]) && ':' in text[start..end]
    requires end < |text| ==> k.space(text[end])
    requires Solid(k, rewritten) && rewritten != "" && SameShape(k, original, text)
    ensures SameShape(k, original, text[..start] + rewritten + text[end..])
  {
    var pre, uri, post := text[..start], text[start..end], text[end..];
    ShapeThroughReplacement(k, pre, uri, rewritten, post);
    assert text == pre + (uri + post);
    assert pre + rewritten + post == pre + (rewritten + post);
    ShapeTransitive(k, original, text, pre + (rewritten + post));
  }

  lemma StepKeepsShape(k: Classes, split: string -> Split, original: string, text: string, index: nat)
    requires Sane(k) && SameShape(k, original, text) && Step(k, split, text, index).Some?
    ensures SameShape(k, original, Step(k, split, text, index).value.0)
  {
    var start := Search(k, text, index).value;
    var end := RunEnd(k, text, start);
    var uri := text[start..end];
    MatchIsSolid(k, text, start);
    RunIsSolid(k, text, start);
    if Rewrite(k, split, uri).Some? {
      RewriteIsSolid(k, split, uri);
      ShapeAfterMatch(k, original, text, start, end, Rewrite(k, split, uri).value);
    }
  }

  method RemoveSensitive(k: Classes, split: string -> Split, cleartext: string) returns (redacted: string)
    requires Sane(k)
    ensures redacted == Clean(k, split, cleartext, 0)
    ensures SameShape(k, cleartext, redacted)
  {
    redacted := cleartext;
    var textIndex: nat := 0;
    ShapeReflexive(k, cleartext);
    while true
      invariant Clean(k, split, redacted, textIndex) == Clean(k, split, cleartext, 0)
      invariant SameShape(k, cleartext, redacted)
      decreases |redacted| - textIndex
    {
      var found := Search(k, redacted, textIndex);
      if found.None? {
        break;
      }
      StepKeepsShape(k, split, cleartext, redacted, textIndex);
      var end := RunEnd(k, redacted, found.value);
      StepAtMatch(k, split, redacted, textIndex, found.value, end);
      redacted, textIndex := Round(k, split, redacted, textIndex, found.value, end);
    }
  }
}
