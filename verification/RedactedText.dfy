/**
 What redaction makes of a text, in terms of the splitter alone: which parts of each URI are replaced, and
 how often. The loop looks forward only, so a text is redacted URI by URI.
 */
module RedactedText {
  import opened Wrappers
  import opened Redaction

  lemma {:induction false} OccurrenceMeansFirst(s: string, t: string, j: nat)
    requires HasAt(s, t, j)
    ensures FirstIndex(s, t).Some? && FirstIndex(s, t).value <= j
  {
    if i: nat :| i < j && HasAt(s, t, i) {
      OccurrenceMeansFirst(s, t, i);
    } else {
      assert First(s, t, j);
    }
  }

  function Join(parts: seq<string>, separator: string): string {
    if parts == [] then ""
    else if |parts| == 1 then parts[0]
    else parts[0] + separator + Join(parts[1..], separator)
  }

  lemma JoinCons(a: string, rest: seq<string>, separator: string)
    requires rest != []
    ensures Join([a] + rest, separator) == a + separator + Join(rest, separator)
  {
    assert ([a] + rest)[1..] == rest;
  }

  lemma JoinsToo(k: Classes, before: string, rest: seq<string>, out: string, out': string)
    requires rest != [] && out == before + k.marker + out' && out' == Join(rest, k.marker)
    ensures out == Join([before] + rest, k.marker)
  {
    JoinCons(before, rest, k.marker);
  }

  /** The first occurrence of `t` after `part` is the one that ends the part. */
  ghost predicate EndsAtFirst(part: string, t: string) {
    FirstIndex(part + t, t) == Some(|part|)
  }

  /** `parts` cut `s` at its first occurrences of `t`, `count` of them if there are so many. */
  ghost predicate FirstCuts(s: string, t: string, count: nat, parts: seq<string>) {
    && 1 <= |parts| <= count + 1
    && s == Join(parts, t)
    && (forall i | 0 <= i < |parts| - 1 :: EndsAtFirst(parts[i], t))
    && (|parts| <= count ==> FirstIndex(parts[|parts| - 1], t).None?)
  }

  lemma CutsCons(before: string, after: string, t: string, count: nat, rest: seq<string>)
    requires count > 0 && EndsAtFirst(before, t) && FirstCuts(after, t, count - 1, rest)
    ensures FirstCuts(before + t + after, t, count, [before] + rest)
  {
    JoinCons(before, rest, t);
  }

  lemma NothingToCut(k: Classes, s: string, t: string, count: nat)
    requires t != "" && (count == 0 || FirstIndex(s, t).None?)
    ensures FirstCuts(s, t, count, [s]) && Replace(k, s, t, count) == Join([s], k.marker)
  {
  }

  lemma ReplaceAtFirst(k: Classes, s: string, t: string, count: nat, i: nat)
    requires t != "" && count > 0 && FirstIndex(s, t) == Some(i)
    ensures i + |t| <= |s|
    ensures Replace(k, s, t, count) == s[..i] + k.marker + Replace(k, s[i + |t|..], t, count - 1)
  {
  }

  lemma CutAtFirst(s: string, t: string, i: nat)
    requires t != "" && FirstIndex(s, t) == Some(i)
    ensures i + |t| <= |s| && s == s[..i] + t + s[i + |t|..]
  {
    assert s == s[..i] + s[i..i + |t|] + s[i + |t|..];
  }

  /**
   Replacing cuts the text at the first `count` occurrences and joins the parts with the marker: an occurrence
   is left in the last part only if `count` others came before it.
   */
  lemma {:induction false} ReplaceIsCutAndJoin(k: Classes, s: string, t: string, count: nat)
      returns (parts: seq<string>)
    requires t != ""
    ensures FirstCuts(s, t, count, parts)
    ensures Replace(k, s, t, count) == Join(parts, k.marker)
    decreases count
  {
    var found := FirstIndex(s, t);
    if count == 0 || found.None? {
      NothingToCut(k, s, t, count);
      parts := [s];
    } else {
      parts := CutOnce(k, s, t, count, found.value);
    }
  }

  lemma FirstStaysFirst(s: string, t: string, i: nat)
    requires t != "" && FirstIndex(s, t) == Some(i)
    ensures FirstIndex(s[..i] + t, t) == Some(i)
  {
    var a := s[..i] + t;
    assert a == s[..i + |t|];
    assert a[i..i + |t|] == t;
    OccurrenceMeansFirst(a, t, i);
    var j := FirstIndex(a, t).value;
    assert a[j..j + |t|] == s[j..j + |t|];
    assert HasAt(s, t, j);
  }

  lemma {:induction false} CutOnce(k: Classes, s: string, t: string, count: nat, i: nat) returns (parts: seq<string>)
    requires t != "" && count > 0 && FirstIndex(s, t) == Some(i)
    ensures FirstCuts(s, t, count, parts)
    ensures Replace(k, s, t, count) == Join(parts, k.marker)
    decreases count, 0
  {
    CutAtFirst(s, t, i);
    ReplaceAtFirst(k, s, t, count, i);
    FirstStaysFirst(s, t, i);
    var before, after := s[..i], s[i + |t|..];
    var rest := ReplaceIsCutAndJoin(k, after, t, count - 1);
    CutsCons(before, after, t, count, rest);
    JoinsToo(k, before, rest, Replace(k, s, t, count), Replace(k, after, t, count - 1));
    parts := [before] + rest;
  }

  /** No part holds what was cut, unless it is the last one and as many as were asked for came before it. */
  lemma PartsAreFree(s: string, t: string, count: nat, parts: seq<string>, i: nat, j: nat)
    requires t != "" && FirstCuts(s, t, count, parts) && i < |parts| && (i < |parts| - 1 || |parts| <= count)
    ensures !HasAt(parts[i], t, j)
  {
    if HasAt(parts[i], t, j) {
      if i < |parts| - 1 {
        assert EndsAtFirst(parts[i], t);
        assert (parts[i] + t)[j..j + |t|] == parts[i][j..j + |t|];
        assert HasAt(parts[i] + t, t, j);
      } else {
        OccurrenceMeansFirst(parts[i], t, j);
      }
    }
  }

  /** `out` is `s` with the first `count` occurrences of the secret, if there is one, replaced by the marker. */
  ghost predicate ReplacedIn(k: Classes, s: string, secret: Option<string>, count: nat, out: string) {
    if secret.Some? && secret.value != ""
    then exists parts :: FirstCuts(s, secret.value, count, parts) && out == Join(parts, k.marker)
    else out == s
  }

  /** First the user name is replaced once, and then the password up to twice. */
  ghost predicate Hides(k: Classes, uri: string, username: Option<string>, password: Option<string>, out: string) {
    exists named :: ReplacedIn(k, uri, username, 1, named) && ReplacedIn(k, named, password, 2, out)
  }

  lemma ReplacedOnce(k: Classes, s: string, secret: Option<string>, count: nat)
    ensures ReplacedIn(k, s, secret, count, if Truthy(secret) then Replace(k, s, secret.value, count) else s)
  {
    if Truthy(secret) {
      var parts := ReplaceIsCutAndJoin(k, s, secret.value, count);
    }
  }

  lemma RedactedHides(k: Classes, uri: string, username: Option<string>, password: Option<string>)
    ensures Hides(k, uri, username, password, Redacted(k, uri, username, password))
  {
    ReplacedOnce(k, uri, username, 1);
    ReplacedOnce(k, if Truthy(username) then Replace(k, uri, username.value, 1) else uri, password, 2);
  }

  // ---------- The loop looks forward only ----------

  lemma {:induction false} RunEndShifts(k: Classes, pre: string, s: string, i: nat)
    requires i <= |s|
    ensures RunEnd(k, pre + s, |pre| + i) == |pre| + RunEnd(k, s, i)
    decreases |s| - i
  {
    if i < |s| && !k.space(s[i]) {
      RunEndShifts(k, pre, s, i + 1);
    }
  }

  lemma HeadShifts(k: Classes, pre: string, s: string, i: nat, n: nat)
    ensures HeadAt(k, pre + s, |pre| + i, n) <==> HeadAt(k, s, i, n)
  {
    if HeadAt(k, pre + s, |pre| + i, n) {
      forall j | i <= j < i + n
        ensures k.word(s[j])
      {
        assert (pre + s)[|pre| + j] == s[j];
      }
    }
  }

  lemma MatchShifts(k: Classes, pre: string, s: string, i: nat)
    ensures MatchesAt(k, pre + s, |pre| + i) <==> MatchesAt(k, s, i)
  {
    var text, at := pre + s, |pre| + i;
    forall n | 1 <= n <= 20
      ensures HeadAt(k, text, at, n) <==> HeadAt(k, s, i, n)
    {
      HeadShifts(k, pre, s, i, n);
    }
  }

  lemma {:induction false} SearchShifts(k: Classes, pre: string, s: string, from: nat)
    ensures Search(k, pre + s, |pre| + from) ==
      match Search(k, s, from) case Some(i) => Some(|pre| + i) case None => None
    decreases |s| - from
  {
    if from < |s| {
      MatchShifts(k, pre, s, from);
      if !MatchesAt(k, s, from) {
        SearchShifts(k, pre, s, from + 1);
      }
    }
  }

  lemma SlicesShift(pre: string, s: string, i: nat, e: nat)
    requires i <= e <= |s|
    ensures (pre + s)[|pre| + i..|pre| + e] == s[i..e]
    ensures (pre + s)[..|pre| + i] == pre + s[..i] && (pre + s)[|pre| + e..] == s[e..]
  {
  }

  /** Replacing a slice of a text with something before it. */
  lemma ReplacedShifts(pre: string, s: string, i: nat, e: nat, w: string)
    requires i <= e <= |s|
    ensures |(pre + s)[..|pre| + i] + w| == |pre| + |s[..i] + w|
    ensures (pre + s)[..|pre| + i] + w + (pre + s)[|pre| + e..] == pre + (s[..i] + w + s[e..])
  {
    SlicesShift(pre, s, i, e);
    assert (pre + s[..i]) + w + s[e..] == pre + (s[..i] + w + s[e..]);
  }

  function Shifted(pre: string, step: Option<(string, nat)>): Option<(string, nat)> {
    match step
    case Some((text, index)) => Some((pre + text, |pre| + index))
    case None => None
  }

  lemma EditedShifts(pre: string, s: string, t: string, index: nat, i: nat, e: nat, w: Option<string>, clamp: bool)
    requires i <= e <= |s| && (w.Some? ==> w.value != "") && t == pre + s
    ensures Some(Edited(t, |pre| + index, |pre| + i, |pre| + e, w, clamp)) ==
      Shifted(pre, Some(Edited(s, index, i, e, w, clamp)))
  {
    if w.Some? {
      ReplacedShifts(pre, s, i, e, w.value);
    }
  }

  /** `next` is one round of the loop. */
  ghost predicate IsStep(next: (string, nat) -> Option<(string, nat)>, k: Classes, split: string -> Split)
    requires Sane(k)
  {
    forall text, index: nat {:trigger Step(k, split, text, index)} :: next(text, index) == Step(k, split, text, index)
  }

  /** `r` is what a round makes of the first match from the index on, if there is one. */
  ghost predicate Outcome(k: Classes, split: string -> Split, text: string, index: nat, r: Option<(string, nat)>)
    requires Sane(k)
  {
    match Search(k, text, index)
    case None => r == None
    case Some(i) =>
      var e := RunEnd(k, text, i);
      var rewritten := Rewrite(k, split, text[i..e]);
      && (rewritten.Some? ==> rewritten.value != "")
      && r == Some(Edited(text, index, i, e, rewritten, CredentialsOf(split, text[i..e]).Found?))
  }

  lemma NextIsOutcome(next: (string, nat) -> Option<(string, nat)>, k: Classes, split: string -> Split, text: string,
      index: nat)
    requires Sane(k) && IsStep(next, k, split)
    ensures Outcome(k, split, text, index, next(text, index))
  {
    assert next(text, index) == Step(k, split, text, index);
    if Search(k, text, index).Some? {
      StepAtMatch(k, split, text, index, Search(k, text, index).value, RunEnd(k, text, Search(k, text, index).value));
    }
  }

  lemma OutcomeShifts(k: Classes, split: string -> Split, pre: string, s: string, index: nat, r: Option<(string, nat)>,
      r': Option<(string, nat)>)
    requires Sane(k) && Outcome(k, split, s, index, r) && Outcome(k, split, pre + s, |pre| + index, r')
    ensures r' == Shifted(pre, r)
  {
    SearchShifts(k, pre, s, index);
    if Search(k, s, index).Some? {
      var i := Search(k, s, index).value;
      var e := RunEnd(k, s, i);
      RunEndShifts(k, pre, s, i);
      SlicesShift(pre, s, i, e);
      EditedShifts(pre, s, pre + s, index, i, e, Rewrite(k, split, s[i..e]), CredentialsOf(split, s[i..e]).Found?);
    }
  }

  lemma NextShifts(next: (string, nat) -> Option<(string, nat)>, k: Classes, split: string -> Split, pre: string,
      s: string, t: string, index: nat)
    requires Sane(k) && IsStep(next, k, split) && t == pre + s
    ensures next(t, |pre| + index) == Shifted(pre, next(s, index))
  {
    NextIsOutcome(next, k, split, s, index);
    NextIsOutcome(next, k, split, t, |pre| + index);
    OutcomeShifts(k, split, pre, s, index, next(s, index), next(t, |pre| + index));
  }

  /** At most `n` rounds. */
  function Rounds(next: (string, nat) -> Option<(string, nat)>, text: string, index: nat, n: nat): string
    decreases n
  {
    if n == 0 then text
    else match next(text, index)
      case None => text
      case Some((text', index')) => Rounds(next, text', index', n - 1)
  }

  lemma {:induction false} RoundsShift(next: (string, nat) -> Option<(string, nat)>, pre: string, s: string, index: nat,
      n: nat)
    requires forall t, i: nat :: next(pre + t, |pre| + i) == Shifted(pre, next(t, i))
    ensures Rounds(next, pre + s, |pre| + index, n) == pre + Rounds(next, s, index, n)
    decreases n
  {
    if n > 0 && next(s, index).Some? {
      RoundsShift(next, pre, next(s, index).value.0, next(s, index).value.1, n - 1);
    }
  }

  lemma {:induction false} CleanIsRounds(next: (string, nat) -> Option<(string, nat)>, k: Classes,
      split: string -> Split, text: string, index: nat, n: nat)
    requires Sane(k) && IsStep(next, k, split) && n + index >= |text|
    ensures Clean(k, split, text, index) == Rounds(next, text, index, n)
    decreases n
  {
    match Step(k, split, text, index) {
      case None =>
      case Some((text', index')) => CleanIsRounds(next, k, split, text', index', n - 1);
    }
  }

  /** What lies before the index is out of the loop's reach. */
  lemma CleanShifts(k: Classes, split: string -> Split, pre: string, s: string)
    requires Sane(k)
    ensures Clean(k, split, pre + s, |pre|) == pre + Clean(k, split, s, 0)
  {
    var next := (text: string, index: nat) => if Sane(k) then Step(k, split, text, index) else None;
    assert IsStep(next, k, split);
    forall t, i: nat
      ensures next(pre + t, |pre| + i) == Shifted(pre, next(t, i))
    {
      NextShifts(next, k, split, pre, t, pre + t, i);
    }
    RoundsShift(next, pre, s, 0, |s|);
    CleanIsRounds(next, k, split, pre + s, |pre|, |s|);
    CleanIsRounds(next, k, split, s, 0, |s|);
  }

  // ---------- One URI of a text ----------

  lemma CleanGoesOn(k: Classes, split: string -> Split, text: string, index: nat, start: nat, end: nat,
      rewritten: Option<string>, clamp: bool)
    requires Sane(k) && Search(k, text, index) == Some(start) && end == RunEnd(k, text, start) && start < end
    requires rewritten == Rewrite(k, split, text[start..end]) && clamp == CredentialsOf(split, text[start..end]).Found?
    ensures rewritten.Some? ==> rewritten.value != ""
    ensures var (text', index') := Edited(text, index, start, end, rewritten, clamp);
      Clean(k, split, text, index) == Clean(k, split, text', index')
  {
    StepAtMatch(k, split, text, index, start, end);
  }

  lemma NothingAtTheEnd(k: Classes, split: string -> Split, text: string, index: nat)
    requires Sane(k) && index + 1 >= |text|
    ensures Clean(k, split, text, index) == text
  {
  }

  /** From the index after a rewritten match on, the loop sees what came after the match. */
  lemma CleanBehind(k: Classes, split: string -> Split, t: string, post: string, index: nat)
    requires Sane(k) && (index == |t| || (post == "" && index + 1 == |t|))
    ensures Clean(k, split, t + post, index) == t + Clean(k, split, post, 0)
  {
    if index == |t| {
      CleanShifts(k, split, t, post);
    } else {
      assert t + post == t;
      NothingAtTheEnd(k, split, t, index);
      NothingAtTheEnd(k, split, post, 0);
    }
  }

  lemma CleanAfterEdit(k: Classes, split: string -> Split, text: string, start: nat, end: nat, w: string, clamp: bool)
    requires Sane(k) && start < end <= |text| && w != ""
    ensures var (text', index') := Edited(text, 0, start, end, Some(w), clamp);
      Clean(k, split, text', index') == text[..start] + w + Clean(k, split, text[end..], 0)
  {
    CleanBehind(k, split, text[..start] + w, text[end..], Edited(text, 0, start, end, Some(w), clamp).1);
  }

  /** A rewritten match is out of reach from then on. */
  lemma CleanAfterMatch(k: Classes, split: string -> Split, text: string, start: nat, end: nat, w: string)
    requires Sane(k) && Search(k, text, 0) == Some(start) && end == RunEnd(k, text, start) && start < end
    requires Rewrite(k, split, text[start..end]) == Some(w)
    ensures Clean(k, split, text, 0) == text[..start] + w + Clean(k, split, text[end..], 0)
  {
    var clamp := CredentialsOf(split, text[start..end]).Found?;
    CleanGoesOn(k, split, text, 0, start, end, Some(w), clamp);
    CleanAfterEdit(k, split, text, start, end, w, clamp);
  }

  lemma CleanFrom(k: Classes, split: string -> Split, text: string, index: nat)
    requires Sane(k) && index <= |text|
    ensures Clean(k, split, text, index) == text[..index] + Clean(k, split, text[index..], 0)
  {
    assert text == text[..index] + text[index..];
    CleanShifts(k, split, text[..index], text[index..]);
  }

  /** A match that names nothing moves the index by its length, from where the search began. */
  lemma CleanAfterSkipping(k: Classes, split: string -> Split, text: string, start: nat, end: nat)
    requires Sane(k) && Search(k, text, 0) == Some(start) && end == RunEnd(k, text, start) && start < end
    requires CredentialsOf(split, text[start..end]).Nothing?
    ensures Clean(k, split, text, 0) == Clean(k, split, text, end - start)
  {
    assert Edited(text, 0, start, end, None, false) == (text, end - start);
    StepAtMatch(k, split, text, 0, start, end);
  }

  /** `text[start..end]` is the first URI of the text: the first match, up to the next space or the end. */
  ghost predicate FirstUri(k: Classes, text: string, start: nat, end: nat) {
    && start < end <= |text| && MatchesAt(k, text, start) && (forall j | 0 <= j < start :: !MatchesAt(k, text, j))
    && Solid(k, text[start..end]) && (end < |text| ==> k.space(text[end]))
  }

  lemma {:induction false} SearchFinds(k: Classes, text: string, from: nat, i: nat)
    requires from <= i < |text| && MatchesAt(k, text, i) && forall j | from <= j < i :: !MatchesAt(k, text, j)
    ensures Search(k, text, from) == Some(i)
    decreases i - from
  {
    if from < i {
      SearchFinds(k, text, from + 1, i);
    }
  }

  lemma {:induction false} RunEndFinds(k: Classes, s: string, i: nat, e: nat)
    requires i <= e <= |s| && (forall j | i <= j < e :: !k.space(s[j])) && (e < |s| ==> k.space(s[e]))
    ensures RunEnd(k, s, i) == e
    decreases e - i
  {
    if i < e {
      RunEndFinds(k, s, i + 1, e);
    }
  }

  lemma FirstUriIsFound(k: Classes, text: string, start: nat, end: nat)
    requires FirstUri(k, text, start, end)
    ensures Search(k, text, 0) == Some(start) && RunEnd(k, text, start) == end
  {
    SearchFinds(k, text, 0, start);
    forall j | start <= j < end
      ensures !k.space(text[j])
    {
      assert text[j] == text[start..end][j - start];
    }
    RunEndFinds(k, text, start, end);
  }

  function Colons(s: string): nat {
    multiset(s)[':']
  }

  lemma ColonAt(s: string)
    ensures match FirstIndex(s, ":")
      case None => ':' !in s
      case Some(i) => i < |s| && s[i] == ':' && ':' !in s[..i]
  {
    forall j | 0 <= j < |s|
      ensures HasAt(s, ":", j) <==> s[j] == ':'
    {
      assert s[j..j + 1] == [s[j]];
    }
    if ':' in s {
      var j :| 0 <= j < |s| && s[j] == ':';
      OccurrenceMeansFirst(s, ":", j);
    }
  }

  lemma ColonsSplit(s: string, i: nat)
    requires i < |s| && s[i] == ':'
    ensures s == s[..i] + ":" + s[i + 1..] && Colons(s) == Colons(s[..i]) + 1 + Colons(s[i + 1..])
  {
    assert s == s[..i] + ":" + s[i + 1..];
  }

  lemma TwoPartsMeans(netloc: string)
    ensures ':' in netloc <==> Colons(netloc) > 0
    ensures TwoParts(netloc).Some? <==> Colons(netloc) == 1
    ensures TwoParts(netloc).Some? ==> netloc == TwoParts(netloc).value.0 + ":" + TwoParts(netloc).value.1
  {
    ColonAt(netloc);
    var i := FirstIndex(netloc, ":");
    if i.Some? {
      ColonsSplit(netloc, i.value);
    }
  }

  /** `out` is the text with the URI replaced by something for which `Hides` holds, and the rest redacted. */
  ghost predicate HiddenAt(k: Classes, split: string -> Split, text: string, start: nat, end: nat,
      username: Option<string>, password: Option<string>, out: string)
    requires Sane(k) && start <= end <= |text|
  {
    exists w :: Hides(k, text[start..end], username, password, w) &&
      out == text[..start] + w + Clean(k, split, text[end..], 0)
  }

  lemma HiddenAtFound(k: Classes, split: string -> Split, text: string, start: nat, end: nat)
    requires Sane(k) && FirstUri(k, text, start, end) && CredentialsOf(split, text[start..end]).Found?
    ensures var c := CredentialsOf(split, text[start..end]);
      HiddenAt(k, split, text, start, end, c.username, c.password, Clean(k, split, text, 0))
  {
    var c := CredentialsOf(split, text[start..end]);
    FirstUriIsFound(k, text, start, end);
    CleanAfterMatch(k, split, text, start, end, Redacted(k, text[start..end], c.username, c.password));
    RedactedHides(k, text[start..end], c.username, c.password);
  }

  /** The marker stands for the whole URI, and the rest is redacted. */
  ghost predicate MarkedAt(k: Classes, split: string -> Split, text: string, start: nat, end: nat, out: string)
    requires Sane(k) && start <= end <= |text|
  {
    out == text[..start] + k.marker + Clean(k, split, text[end..], 0)
  }

  lemma MarkedAtInvalid(k: Classes, split: string -> Split, text: string, start: nat, end: nat)
    requires Sane(k) && FirstUri(k, text, start, end) && CredentialsOf(split, text[start..end]).ValueError?
    ensures MarkedAt(k, split, text, start, end, Clean(k, split, text, 0))
  {
    FirstUriIsFound(k, text, start, end);
    CleanAfterMatch(k, split, text, start, end, k.marker);
  }

  /** The search goes on as many characters from the start of the text as the URI is long. */
  ghost predicate PassedOver(k: Classes, split: string -> Split, text: string, length: nat, out: string)
    requires Sane(k) && length <= |text|
  {
    out == text[..length] + Clean(k, split, text[length..], 0)
  }

  lemma PassedOverFrom(k: Classes, split: string -> Split, text: string, length: nat, out: string)
    requires Sane(k) && length <= |text| && out == Clean(k, split, text, length)
    ensures PassedOver(k, split, text, length, out)
  {
    CleanFrom(k, split, text, length);
  }

  lemma PassedOverSafe(k: Classes, split: string -> Split, text: string, start: nat, end: nat, out: string)
    requires Sane(k) && Search(k, text, 0) == Some(start) && end == RunEnd(k, text, start)
    requires CredentialsOf(split, text[start..end]).Nothing? && out == Clean(k, split, text, 0)
    ensures start < end && PassedOver(k, split, text, end - start, out)
  {
    MatchIsSolid(k, text, start);
    CleanAfterSkipping(k, split, text, start, end);
    PassedOverFrom(k, split, text, end - start, out);
  }

  /**
   The first URI of a text and then the rest: a URI the splitter refuses becomes the marker; one with a user
   name or a password has them replaced; one without them has the two parts of its network location replaced
   if it has two, becomes the marker if it has more, and is passed over if it has one. Passing over counts
   from where the search began, so it may end before the URI does.
   */
  lemma UriInText(k: Classes, split: string -> Split, text: string, start: nat, end: nat)
    requires Sane(k) && FirstUri(k, text, start, end)
    ensures var out := Clean(k, split, text, 0);
      match split(text[start..end])
      case Invalid => MarkedAt(k, split, text, start, end, out)
      case Parts(u, p, netloc) =>
        if Truthy(u) || Truthy(p) then HiddenAt(k, split, text, start, end, u, p, out)
        else if Colons(netloc) == 0 then PassedOver(k, split, text, end - start, out)
        else if Colons(netloc) == 1 then
          exists a, b :: netloc == a + ":" + b && HiddenAt(k, split, text, start, end, Some(a), Some(b), out)
        else MarkedAt(k, split, text, start, end, out)
  {
    var parts := split(text[start..end]);
    if parts.Parts? {
      TwoPartsMeans(parts.netloc);
    }
    match CredentialsOf(split, text[start..end]) {
      case Nothing =>
        FirstUriIsFound(k, text, start, end);
        PassedOverSafe(k, split, text, start, end, Clean(k, split, text, 0));
      case ValueError => MarkedAtInvalid(k, split, text, start, end);
      case Found(u, p) => HiddenAtFound(k, split, text, start, end);
    }
  }

  /** A text in which nothing looks like a URI stays as it is. */
  lemma NoUriNoChange(k: Classes, split: string -> Split, text: string)
    requires Sane(k) && forall j | 0 <= j < |text| :: !MatchesAt(k, text, j)
    ensures Clean(k, split, text, 0) == text
  {
  }

  /** Nothing matches among words without a colon that end in a space. */
  lemma NoMatchInWords(k: Classes, text: string, end: nat, j: nat)
    requires Sane(k) && j < end <= |text| && ':' !in text[..end] && k.space(text[end - 1])
    ensures !MatchesAt(k, text, j)
  {
    forall n | 1 <= n <= 20
      ensures !HeadAt(k, text, j, n)
    {
      if j + n < end {
        assert text[j + n] == text[..end][j + n];
      } else {
        assert !k.word(text[end - 1]);
      }
    }
  }

  /**
   For instance: a URI after words without a colon, with a scheme of one to twenty word characters and
   credentials that the splitter names, has them replaced, and the rest of the text is redacted.
   */
  lemma CredentialsInText(k: Classes, split: string -> Split, text: string, start: nat, colon: nat, end: nat)
    requires Sane(k) && start < colon <= start + 20 && colon + 1 < end <= |text| && text[colon] == ':'
    requires ':' !in text[..start] && (start > 0 ==> k.space(text[start - 1]))
    requires (forall j | start <= j < colon :: k.word(text[j])) && Solid(k, text[start..end])
    requires end < |text| ==> k.space(text[end])
    requires var parts := split(text[start..end]); parts.Parts? && (Truthy(parts.username) || Truthy(parts.password))
    ensures var parts := split(text[start..end]);
      HiddenAt(k, split, text, start, end, parts.username, parts.password, Clean(k, split, text, 0))
  {
    assert text[colon + 1] == text[start..end][colon + 1 - start];
    assert HeadAt(k, text, start, colon - start);
    forall j | 0 <= j < start
      ensures !MatchesAt(k, text, j)
    {
      NoMatchInWords(k, text, start, j);
    }
    UriInText(k, split, text, start, end);
  }

  lemma CleanOfUri(k: Classes, split: string -> Split, uri: string)
    requires Sane(k) && Solid(k, uri) && uri != "" && MatchesAt(k, uri, 0)
    requires CredentialsOf(split, uri).Found?
    ensures Clean(k, split, uri, 0) == Rewrite(k, split, uri).value
  {
    var rewritten := Rewrite(k, split, uri).value;
    RunEndOfSolid(k, uri, "", 0);
    assert uri + "" == uri && uri[0..|uri|] == uri;
    RewriteIsSolid(k, split, uri);
    assert Search(k, uri, 0) == Some(0);
    assert uri[..0] + rewritten == rewritten && rewritten + uri[|uri|..] == rewritten;
    assert Search(k, rewritten, |rewritten| - 1) == None;
  }

  /** A text that is one URI with credentials becomes that URI with its credentials replaced. */
  lemma SingleUri(k: Classes, split: string -> Split, uri: string)
    requires Sane(k) && Solid(k, uri) && uri != "" && MatchesAt(k, uri, 0)
    requires CredentialsOf(split, uri).Found?
    ensures var c := CredentialsOf(split, uri);
      Hides(k, uri, c.username, c.password, Clean(k, split, uri, 0))
  {
    var c := CredentialsOf(split, uri);
    CleanOfUri(k, split, uri);
    RedactedHides(k, uri, c.username, c.password);
  }
}
