/** The first version of the content script: a fixed Russian table and a
    keyup listener that rewrites the text before the caret with it. */
module LegacyScript {
  import opened Js
  import opened Dom
  import opened Rewriter

  /** The entries of the table whose key is one character. */
  function OneKey(c: char): Option<char> {
    match c
    case 'a' => Some('а')
    case 'b' => Some('б')
    case 'c' => Some('с')
    case 'd' => Some('д')
    case 'e' => Some('е')
    case 'f' => Some('ф')
    case 'g' => Some('г')
    case 'i' => Some('и')
    case 'j' => Some('ж')
    case 'k' => Some('к')
    case 'l' => Some('л')
    case 'm' => Some('м')
    case 'n' => Some('н')
    case 'o' => Some('о')
    case 'p' => Some('п')
    case 'r' => Some('р')
    case 't' => Some('т')
    case 'u' => Some('у')
    case 'v' => Some('в')
    case 'x' => Some('х')
    case 'z' => Some('з')
    case 'è' => Some('э')
    case 'A' => Some('А')
    case 'B' => Some('Б')
    case 'C' => Some('С')
    case 'D' => Some('Д')
    case 'E' => Some('Е')
    case 'F' => Some('Ф')
    case 'G' => Some('Г')
    case 'I' => Some('И')
    case 'J' => Some('Ж')
    case 'K' => Some('К')
    case 'L' => Some('Л')
    case 'M' => Some('М')
    case 'N' => Some('Н')
    case 'O' => Some('О')
    case 'P' => Some('П')
    case 'R' => Some('Р')
    case 'T' => Some('Т')
    case 'U' => Some('У')
    case 'V' => Some('В')
    case 'X' => Some('Х')
    case 'Z' => Some('З')
    case 'È' => Some('Э')
    case _ => None
  }

  /** The entries whose key is two characters. */
  function TwoKeys(c: char, d: char): Option<char> {
    match (c, d)
    case ('y', 'a') => Some('я')
    case ('y', 'A') => Some('я')
    case ('y', 'i') => Some('й')
    case ('y', 'I') => Some('й')
    case ('y', 'o') => Some('ё')
    case ('y', 'O') => Some('ё')
    case ('y', 'u') => Some('ю')
    case ('y', 'U') => Some('ю')
    case ('y', 'y') => Some('ы')
    case ('y', 'Y') => Some('ы')
    case ('т', 's') => Some('ц')
    case ('т', 'S') => Some('ц')
    case ('s', 'h') => Some('ш')
    case ('s', 'H') => Some('ш')
    case ('с', 'h') => Some('ч')
    case ('с', 'H') => Some('ч')
    case ('q', 'd') => Some('ъ')
    case ('q', 'D') => Some('ъ')
    case ('q', 's') => Some('ь')
    case ('q', 'S') => Some('ь')
    case ('Y', 'A') => Some('Я')
    case ('Y', 'a') => Some('Я')
    case ('Y', 'I') => Some('Й')
    case ('Y', 'i') => Some('Й')
    case ('Y', 'O') => Some('Ё')
    case ('Y', 'o') => Some('Ё')
    case ('Y', 'U') => Some('Ю')
    case ('Y', 'u') => Some('Ю')
    case ('Y', 'Y') => Some('Ы')
    case ('Y', 'y') => Some('Ы')
    case ('Т', 'S') => Some('Ц')
    case ('Т', 's') => Some('Ц')
    case ('S', 'H') => Some('Ш')
    case ('S', 'h') => Some('Ш')
    case ('С', 'H') => Some('Ч')
    case ('С', 'h') => Some('Ч')
    case ('Q', 'D') => Some('Ъ')
    case ('Q', 'd') => Some('Ъ')
    case ('Q', 'S') => Some('Ь')
    case ('Q', 's') => Some('Ь')
    case _ => None
  }

  /** The entries whose key is three characters. */
  function ThreeKeys(c: char, d: char, e: char): Option<char> {
    match (c, d, e)
    case ('ш', 'с', 'h') => Some('щ')
    case ('ш', 'с', 'H') => Some('щ')
    case ('ш', 'С', 'h') => Some('щ')
    case ('ш', 'С', 'H') => Some('щ')
    case ('Ш', 'С', 'H') => Some('Щ')
    case ('Ш', 'С', 'h') => Some('Щ')
    case ('Ш', 'с', 'H') => Some('Щ')
    case ('Ш', 'с', 'h') => Some('Щ')
    case _ => None
  }

  /** `mapping[w]`: the letter the Russian table gives for the typed text
      `w`, or `None` (`undefined`). Every key has one to three characters
      and every value is one letter. */
  function Russian(w: string): (r: Option<string>)
    ensures r.Some? ==> 1 <= |w| <= MaxWidth && |r.value| == 1
  {
    AsText(Letter(w))
  }

  /** The entry for `w`, by the length of the key. */
  function Letter(w: string): Option<char> {
    if |w| == 1 then OneKey(w[0])
    else if |w| == 2 then TwoKeys(w[0], w[1])
    else if |w| == 3 then ThreeKeys(w[0], w[1], w[2])
    else None
  }

  /** A letter as a one-character string. */
  function AsText(r: Option<char>): Option<string> {
    if r.Some? then Some([r.value]) else None
  }

  /** Lower-case letters: Latin, Cyrillic, and the accented `è`. */
  predicate IsLower(c: char) {
    ('a' <= c <= 'z') || ('а' <= c <= 'я') || c == 'ё' || c == 'è'
  }

  /** Upper-case letters: Latin, Cyrillic, and the accented `È`. */
  predicate IsUpper(c: char) {
    ('A' <= c <= 'Z') || ('А' <= c <= 'Я') || c == 'Ё' || c == 'È'
  }

  /** The capital of a lower-case letter; other characters are kept. */
  function Upper(c: char): (u: char)
    ensures IsLower(c) ==> IsUpper(u) && Lower(u) == c
    ensures !IsLower(c) ==> u == c
  {
    if ('a' <= c <= 'z') || ('а' <= c <= 'я') || c == 'è' then (c as int - 32) as char
    else if c == 'ё' then 'Ё'
    else c
  }

  /** The small letter of an upper-case letter; other characters are kept. */
  function Lower(c: char): (l: char)
    ensures IsUpper(c) ==> IsLower(l)
    ensures !IsUpper(c) ==> l == c
  {
    if ('A' <= c <= 'Z') || ('А' <= c <= 'Я') || c == 'È' then (c as int + 32) as char
    else if c == 'Ё' then 'ё'
    else c
  }

  /** The same letter in the other case (Shift held or not). */
  function SwapCase(c: char): char {
    if IsLower(c) then Upper(c) else if IsUpper(c) then Lower(c) else c
  }

  /** The table's answer with its letter capitalised. */
  function Capitalized(r: Option<string>): Option<string> {
    if r.None? || r.value == [] then r else Some([Upper(r.value[0])] + r.value[1..])
  }

  /** Every key starts with a letter, and the letter it gives has the case
      of that first key. */
  lemma CaseFollowsFirstKey(w: string)
    requires Russian(w).Some?
    ensures IsLower(w[0]) || IsUpper(w[0])
    ensures IsLower(w[0]) <==> IsLower(Russian(w).value[0])
    ensures IsUpper(w[0]) <==> IsUpper(Russian(w).value[0])
  {
  }

  /** The case of the keys after the first does not matter: `yA` is `ya`,
      `шСh` is `шсh`. */
  lemma LaterKeysIgnoreCase(w: string, i: nat)
    requires 1 <= i < |w|
    ensures Russian(w[i := SwapCase(w[i])]) == Russian(w)
  {
    var u := w[i := SwapCase(w[i])];
    if |w| == 2 {
      assert u[0] == w[0] && u[1] == SwapCase(w[1]);
      SecondOfTwoIgnoresCase(w[0], w[1]);
    } else if |w| == 3 && i == 1 {
      assert u[0] == w[0] && u[1] == SwapCase(w[1]) && u[2] == w[2];
      SecondOfThreeIgnoresCase(w[0], w[1], w[2]);
    } else if |w| == 3 {
      assert u[0] == w[0] && u[1] == w[1] && u[2] == SwapCase(w[2]);
      ThirdOfThreeIgnoresCase(w[0], w[1], w[2]);
    }
  }

  lemma SecondOfTwoIgnoresCase(c: char, d: char)
    ensures TwoKeys(c, SwapCase(d)) == TwoKeys(c, d)
  {
  }

  lemma SecondOfThreeIgnoresCase(c: char, d: char, e: char)
    ensures ThreeKeys(c, SwapCase(d), e) == ThreeKeys(c, d, e)
  {
  }

  lemma ThirdOfThreeIgnoresCase(c: char, d: char, e: char)
    ensures ThreeKeys(c, d, SwapCase(e)) == ThreeKeys(c, d, e)
  {
  }

  /** The upper-case half of the table mirrors the lower-case half: a key
      with a capital first letter gives the capital of what the key with
      the small letter gives, and nothing when that gives nothing. */
  lemma UpperMirrorsLower(c: char, rest: string)
    requires IsLower(c)
    ensures Russian([Upper(c)] + rest) == Capitalized(Russian([c] + rest))
  {
    var w, u := [c] + rest, [Upper(c)] + rest;
    CapitalizedText(Letter(w));
    assert w[0] == c && u[0] == Upper(c) && w[1..] == rest && u[1..] == rest;
    if |rest| == 0 {
      OneKeyMirror(c);
    } else if |rest| == 1 {
      assert w[1] == rest[0] && u[1] == rest[0];
      TwoKeysMirror(c, rest[0]);
    } else if |rest| == 2 {
      assert w[1] == u[1] == rest[0] && w[2] == u[2] == rest[1];
      ThreeKeysMirror(c, rest[0], rest[1]);
    }
  }

  /** The capital of what a letter gives. */
  function UpperOf(r: Option<char>): Option<char> {
    if r.Some? then Some(Upper(r.value)) else None
  }

  lemma CapitalizedText(r: Option<char>)
    ensures Capitalized(AsText(r)) == AsText(UpperOf(r))
  {
    if r.Some? {
      var x := r.value;
      assert [x][1..] == [];
      assert [Upper(x)] + [] == [Upper(x)];
    }
  }

  lemma OneKeyMirror(c: char)
    requires IsLower(c)
    ensures OneKey(Upper(c)) == UpperOf(OneKey(c))
  {
    if 'a' <= c <= 'z' {
    } else {
      assert OneKey(c).None? && OneKey(Upper(c)).None? <== c != 'è';
    }
  }

  lemma TwoKeysMirror(c: char, d: char)
    requires IsLower(c)
    ensures TwoKeys(Upper(c), d) == UpperOf(TwoKeys(c, d))
  {
  }

  lemma ThreeKeysMirror(c: char, d: char, e: char)
    requires IsLower(c)
    ensures ThreeKeys(Upper(c), d, e) == UpperOf(ThreeKeys(c, d, e))
  {
  }

  /** The empty field with nothing typed in it. */
  function Blank(): (f: Field)
    ensures f.value == [] && f.caret == 0 && f.events == []
  {
    Field([], 0, [])
  }

  /** The Shift state of every typed key, capitals included: the test
      harness types characters directly and logs every event, capitals
      included, with `shiftKey` false. */
  const TypedShift: bool := false

  /** Typing `c` at the caret: the browser inserts it, then the listener
      runs on its keyup. */
  function Keystroke(f: Field, c: char): (g: Field)
    requires f.caret <= |f.value|
    ensures g.caret <= |g.value|
  {
    Release(Russian, Press(f, c, TypedShift), TypedShift)
  }

  /** Typing `keys` one after the other. */
  function TypeKeys(f: Field, keys: string): (g: Field)
    requires f.caret <= |f.value|
    ensures g.caret <= |g.value|
    decreases |keys|
  {
    if keys == [] then f else TypeKeys(Keystroke(f, keys[0]), keys[1..])
  }

  /** What the keyup listener does to the field: with Alt, Ctrl or Meta
      held, or with text selected, nothing; otherwise the rewrite of the
      text before the caret by the Russian table. */
  twostate predicate ListenerHandled(e: Element, ev: RawEvent)
    reads e
  {
    && e.focusLog == old(e.focusLog)
    && if !Modified(ev) && old(e.Collapsed()) then
         Rewrote(e, Russian, old(e.value), old(e.selStart.value), ev.shiftKey, old(e.keyLog), old(e.history))
       else
         && e.value == old(e.value) && e.selStart == old(e.selStart) && e.selEnd == old(e.selEnd)
         && e.keyLog == old(e.keyLog) && e.history == old(e.history)
  }

  /** The keyup listener `installKeyMapper` puts on a text field. The
      fields it is put on (textareas and text inputs) always have a
      selection. */
  method KeyUpListener(e: Element, ev: RawEvent)
    requires e.Valid() && e.selStart.Some? && e.selEnd.Some?
    modifies e`value, e`selStart, e`selEnd, e`keyLog, e`history
    ensures e.Valid() && ListenerHandled(e, ev)
  {
    if ev.altKey || ev.ctrlKey || ev.metaKey {
      return;
    }
    var posStart, posEnd := e.selStart, e.selEnd;
    if posStart != posEnd {
      return;
    }
    ApplyMapping(e, Russian, ev.shiftKey);
  }

  /** The field of an element, as a value. */
  ghost function FieldOf(e: Element): Field
    reads e
  {
    Field(e.value, if e.selStart.Some? then e.selStart.value else 0, e.keyLog)
  }

  /** A user typing `c` into a field with a caret: the browser's default
      action, then the listener on the key's keyup. The field ends as
      `Keystroke` says. */
  method TypeKey(e: Element, c: char)
    requires e.Valid() && e.Collapsed()
    modifies e`value, e`selStart, e`selEnd, e`keyLog, e`history
    ensures e.Valid() && e.Collapsed()
    ensures FieldOf(e) == Keystroke(old(FieldOf(e)), c)
  {
    ghost var f := FieldOf(e);
    e.Type(c, TypedShift);
    assert FieldOf(e) == Press(f, c, TypedShift);
    ghost var t, pos, log0, history0 := e.value, e.selStart.value, e.keyLog, e.history;
    KeyUpListener(e, RawEvent(KeyUp, [c], false, false, false, TypedShift));
    RewroteIsRelease(e, Russian, t, pos, TypedShift, log0, history0);
  }

  /** Typing a string key by key. */
  method TypeString(e: Element, keys: string)
    requires e.Valid() && e.Collapsed()
    modifies e`value, e`selStart, e`selEnd, e`keyLog, e`history
    ensures e.Valid() && e.Collapsed()
    ensures FieldOf(e) == TypeKeys(old(FieldOf(e)), keys)
  {
    var i := 0;
    while i < |keys|
      invariant i <= |keys| && e.Valid() && e.Collapsed()
      invariant TypeKeys(old(FieldOf(e)), keys) == TypeKeys(FieldOf(e), keys[i..])
    {
      TypeKey(e, keys[i]);
      assert keys[i..][1..] == keys[i + 1..];
      i := i + 1;
    }
  }

  /** The rewrite the listener makes when `c` is typed at the end of `v`:
      the entry for the last three characters, else the last two, else
      `c` alone. */
  function EndRewrite(v: string, c: char): (r: Option<Rewriting>)
    ensures r.Some? ==> 1 <= r.value.width <= |v| + 1 && |r.value.keys| == 1
  {
    var n := |v|;
    if n >= 2 && ThreeKeys(v[n - 2], v[n - 1], c).Some? then Some(Rewriting(3, [ThreeKeys(v[n - 2], v[n - 1], c).value]))
    else if n >= 1 && TwoKeys(v[n - 1], c).Some? then Some(Rewriting(2, [TwoKeys(v[n - 1], c).value]))
    else if OneKey(c).Some? then Some(Rewriting(1, [OneKey(c).value]))
    else None
  }

  /** The text after typing `c` at the end of `v`. */
  function Typed(v: string, c: char): string {
    After(v, c, EndRewrite(v, c))
  }

  /** The events typing `c` produces: the key's own, then the rewrite's. */
  function TypedEvents(v: string, c: char): seq<KeyEvent> {
    KeyTriple([c], TypedShift) + AfterEvents(EndRewrite(v, c), TypedShift)
  }

  /** The text `v + [c]` after the rewrite `d` at its end, if any. */
  function After(v: string, c: char, d: Option<Rewriting>): string
    requires d.Some? ==> 1 <= d.value.width <= |v| + 1
  {
    match d
    case None => v + [c]
    case Some(r) => v[..|v| + 1 - r.width] + r.keys
  }

  /** The events of the rewrite `d`, if any. */
  function AfterEvents(d: Option<Rewriting>, shift: bool): seq<KeyEvent> {
    match d
    case None => []
    case Some(r) => RewriteEvents(r, shift)
  }

  /** With the caret at the end of the text, the search of the listener
      finds exactly the entry `EndRewrite` names. */
  lemma EndRewriteIsDecide(v: string, c: char)
    ensures Decide(Russian, v + [c], |v| + 1) == EndRewrite(v, c)
  {
    var t := v + [c];
    var n := |t|;
    var m3 := if |v| >= 2 then AsText(ThreeKeys(v[|v| - 2], v[|v| - 1], c)) else None;
    var m2 := if |v| >= 1 then AsText(TwoKeys(v[|v| - 1], c)) else None;
    var m1 := AsText(OneKey(c));
    if |v| >= 2 {
      LastThree(v, c);
    }
    if |v| >= 1 {
      LastTwo(v, c);
    }
    assert t[n - 1..] == [c];
    DecideAtEnd(Russian, t, m3, m2, m1);
  }

  /** The last three characters of `v + [c]`, as a key of the table. */
  lemma LastThree(v: string, c: char)
    requires |v| >= 2
    ensures var t := v + [c];
      Russian(t[|t| - 3..]) == AsText(ThreeKeys(v[|v| - 2], v[|v| - 1], c))
  {
    var t := v + [c];
    var w := t[|t| - 3..];
    assert w[0] == v[|v| - 2] && w[1] == v[|v| - 1] && w[2] == c;
  }

  /** The last two characters of `v + [c]`, as a key of the table. */
  lemma LastTwo(v: string, c: char)
    requires |v| >= 1
    ensures var t := v + [c];
      Russian(t[|t| - 2..]) == AsText(TwoKeys(v[|v| - 1], c))
  {
    var t := v + [c];
    var w := t[|t| - 2..];
    assert w[0] == v[|v| - 1] && w[1] == c;
  }


  /** Typing at the end of the text: the browser's insertion and the
      listener's rewrite together give `Typed` and `TypedEvents`. */
  lemma KeystrokeAtEnd(f: Field, c: char)
    requires f.caret == |f.value|
    ensures Keystroke(f, c) == Field(Typed(f.value, c), |Typed(f.value, c)|, f.events + TypedEvents(f.value, c))
  {
    EndRewriteIsDecide(f.value, c);
    PressRelease(Russian, f, c, TypedShift, EndRewrite(f.value, c));
  }

  /** A key typed at the end of the text, under any table: the browser
      appends it, then the keyup makes the rewrite the table decides. */
  lemma PressRelease(M: Mapping, f: Field, c: char, shift: bool, d: Option<Rewriting>)
    requires f.caret == |f.value| && M("").None?
    requires Decide(M, f.value + [c], |f.value| + 1) == d && (d.Some? ==> 1 <= d.value.width <= |f.value| + 1)
    ensures var v := After(f.value, c, d);
      Release(M, Press(f, c, shift), shift) == Field(v, |v|, f.events + (KeyTriple([c], shift) + AfterEvents(d, shift)))
  {
    var v := f.value;
    var t := v + [c];
    var e := f.events + KeyTriple([c], shift);
    PressAtEnd(f, c, shift);
    assert Press(f, c, shift) == Field(t, |t|, e);
    ReleaseAtEnd(M, t, e, shift);
    match d
    case None =>
      assert e == f.events + (KeyTriple([c], shift) + []);
    case Some(r) =>
      PrefixOfAppend(v, c, |v| + 1 - r.width);
      assert t[..|t| - r.width] == v[..|v| + 1 - r.width];
      assert e + RewriteEvents(r, shift) == f.events + (KeyTriple([c], shift) + RewriteEvents(r, shift)) by {
        AppendAssociates(f.events, KeyTriple([c], shift), RewriteEvents(r, shift));
      }
  }

  /** The browser's insertion at the end of the text appends the key. */
  lemma PressAtEnd(f: Field, c: char, shift: bool)
    requires f.caret == |f.value|
    ensures Press(f, c, shift) == Field(f.value + [c], |f.value| + 1, f.events + KeyTriple([c], shift))
  {
    var p := Press(f, c, shift);
    assert p.value == p.value[..p.caret] + p.value[p.caret..];
    assert f.value[|f.value|..] == [];
  }

  /** A prefix of `v + [c]` no longer than `v` is a prefix of `v`. */
  lemma PrefixOfAppend(v: string, c: char, n: nat)
    requires n <= |v|
    ensures (v + [c])[..n] == v[..n]
  {
  }

  /** Typing `a` then `b` is typing `a + b`. */
  lemma {:induction false} TypeKeysAppend(f: Field, a: string, b: string)
    requires f.caret <= |f.value|
    ensures TypeKeys(f, a + b) == TypeKeys(TypeKeys(f, a), b)
    decreases |a|
  {
    if a != [] {
      assert (a + b)[0] == a[0] && (a + b)[1..] == a[1..] + b;
      TypeKeysAppend(Keystroke(f, a[0]), a[1..], b);
    } else {
      assert a + b == b;
    }
  }

  /** Typing `keys` one after the other at the end of `v`. */
  function TypedAll(v: string, keys: string): string
    decreases |keys|
  {
    if keys == [] then v else TypedAll(Typed(v, keys[0]), keys[1..])
  }

  /** The events typing `keys` at the end of `v` produces. */
  function TypedAllEvents(v: string, keys: string): seq<KeyEvent>
    decreases |keys|
  {
    if keys == [] then [] else TypedEvents(v, keys[0]) + TypedAllEvents(Typed(v, keys[0]), keys[1..])
  }

  /** Typing key by key at the end of the text is what `TypedAll` and
      `TypedAllEvents` compute; the caret stays at the end. */
  lemma {:induction false} TypeKeysAtEnd(f: Field, keys: string)
    requires f.caret == |f.value|
    ensures TypeKeys(f, keys) == Field(TypedAll(f.value, keys), |TypedAll(f.value, keys)|, f.events + TypedAllEvents(f.value, keys))
    decreases |keys|
  {
    if keys == [] {
      assert f.events + [] == f.events;
    } else {
      KeystrokeAtEnd(f, keys[0]);
      var g := Keystroke(f, keys[0]);
      TypeKeysAtEnd(g, keys[1..]);
      AppendAssociates(f.events, TypedEvents(f.value, keys[0]), TypedAllEvents(g.value, keys[1..]));
    }
  }

  /** Typing `a` then `b` at the end of the text is typing `a + b`. */
  lemma {:induction false} TypedAllAppend(v: string, a: string, b: string)
    ensures TypedAll(v, a + b) == TypedAll(TypedAll(v, a), b)
    ensures TypedAllEvents(v, a + b) == TypedAllEvents(v, a) + TypedAllEvents(TypedAll(v, a), b)
    decreases |a|
  {
    if a == [] {
      assert a + b == b;
    } else {
      assert (a + b)[0] == a[0] && (a + b)[1..] == a[1..] + b;
      TypedAllAppend(Typed(v, a[0]), a[1..], b);
      AppendAssociates(TypedEvents(v, a[0]), TypedAllEvents(Typed(v, a[0]), a[1..]), TypedAllEvents(TypedAll(v, a), b));
    }
  }
}
