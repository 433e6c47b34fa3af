/** The caret-anchored, longest-suffix rewriter shared by both content
    scripts: on keyup, the widest window of 3, 2 or 1 characters ending at
    the caret that is a key of the mapping is deleted one character at a
    time and the mapped text is inserted one character at a time, each step
    dispatching the key events a user's typing would. */
module Rewriter {
  import opened Js
  import opened Dom

  /** A key mapping as the scripts consult it: `mapping[w]`, with `None`
      standing for `undefined`. */
  type Mapping = string -> Option<string>

  /** The widest window the search tries. */
  const MaxWidth: nat := 3

  /** `t.slice(pos - width, pos)`: the window of `width` characters ending at
      the caret. */
  function Window(t: string, pos: int, width: nat): string {
    Slice(t, pos - width, pos)
  }

  /** The test of the search loop: the window fits in the text and is a key. */
  predicate Matches(M: Mapping, t: string, pos: int, width: nat) {
    width <= |t| && M(Window(t, pos, width)).Some?
  }

  /** The width the search loop stops at: the widest matching window of at
      most `MaxWidth` characters, or 0 when none matches. */
  function MatchWidth(M: Mapping, t: string, pos: int): (l: nat)
    ensures l <= MaxWidth
    ensures l > 0 ==> Matches(M, t, pos, l)
    ensures forall k :: l < k <= MaxWidth ==> !Matches(M, t, pos, k)
  {
    assert forall k {:trigger Matches(M, t, pos, k)} :: 0 < k <= MaxWidth ==> k == 1 || k == 2 || k == 3;
    if Matches(M, t, pos, 3) then 3
    else if Matches(M, t, pos, 2) then 2
    else if Matches(M, t, pos, 1) then 1
    else 0
  }

  /** What a keyup rewrites: `width` characters before the caret become `keys`. */
  datatype Rewriting = Rewriting(width: nat, keys: string)

  /** The rewrite a keyup performs with the caret at `pos`, if any. */
  function Decide(M: Mapping, t: string, pos: int): (r: Option<Rewriting>)
    ensures r.None? <==> forall k :: 1 <= k <= MaxWidth ==> !Matches(M, t, pos, k)
    ensures r.Some? ==> && 1 <= r.value.width <= MaxWidth && r.value.width <= |t|
                        && M(Window(t, pos, r.value.width)) == Some(r.value.keys)
                        && forall k :: r.value.width < k <= MaxWidth ==> !Matches(M, t, pos, k)
  {
    var l := MatchWidth(M, t, pos);
    if l == 0 then None else Some(Rewriting(l, M(Window(t, pos, l)).value))
  }

  /** A table without an empty key never matches a window wider than the
      text before the caret, however long the text after it. */
  lemma WidthWithinCaret(M: Mapping, t: string, pos: nat)
    requires M("").None? && pos <= |t|
    ensures Decide(M, t, pos).Some? ==> Decide(M, t, pos).value.width <= pos
  {
    var r := Decide(M, t, pos);
    if r.Some? && r.value.width > pos {
      SliceBeforeStartIsEmpty(t, pos, r.value.width);
      assert false;
    }
  }

  /** With the caret at the end of the text, the windows are the text's last
      three, two and one characters, and the widest that is a key wins. */
  lemma DecideAtEnd(M: Mapping, t: string, m3: Option<string>, m2: Option<string>, m1: Option<string>)
    requires |t| >= 1
    requires m3 == if |t| >= 3 then M(t[|t| - 3..]) else None
    requires m2 == if |t| >= 2 then M(t[|t| - 2..]) else None
    requires m1 == M(t[|t| - 1..])
    ensures Decide(M, t, |t|) ==
      if m3.Some? then Some(Rewriting(3, m3.value))
      else if m2.Some? then Some(Rewriting(2, m2.value))
      else if m1.Some? then Some(Rewriting(1, m1.value))
      else None
  {
    forall k | 1 <= k <= MaxWidth && k <= |t|
      ensures Window(t, |t|, k) == t[|t| - k..]
    {
    }
  }

  /** The final value: `t.slice(0, pos - l) + keys + t.slice(pos)`. */
  function Rewritten(t: string, pos: int, r: Rewriting): string {
    Slice(t, 0, pos - r.width) + r.keys + Slice(t, pos, |t|)
  }

  /** The rewrite replaces exactly the window: the text before it and the text
      after the caret are unchanged, and the mapped keys sit between them. */
  lemma RewrittenSplicesWindow(t: string, pos: nat, r: Rewriting)
    requires r.width <= pos <= |t|
    ensures var v := Rewritten(t, pos, r);
      && v == t[..pos - r.width] + r.keys + t[pos..]
      && |v| == |t| - r.width + |r.keys|
      && v[..pos - r.width] == t[..pos - r.width]
      && v[pos - r.width..pos - r.width + |r.keys|] == r.keys
      && v[pos - r.width + |r.keys|..] == t[pos..]
  {
    var v := Rewritten(t, pos, r);
    var a, b := t[..pos - r.width], t[pos..];
    assert v == a + r.keys + b;
    assert v[..|a|] == a;
    assert v[|a|..|a| + |r.keys|] == r.keys;
    assert v[|a| + |r.keys|..] == b;
  }

  const BackspaceDown := KeyEvent(KeyDown, "Backspace", false)
  const BackspaceUp := KeyEvent(KeyUp, "Backspace", false)

  /** The events of `n` deletions: a Backspace keydown and keyup each. */
  function BackspaceEvents(n: nat): (r: seq<KeyEvent>)
    ensures |r| == 2 * n
  {
    if n == 0 then [] else BackspaceEvents(n - 1) + [BackspaceDown, BackspaceUp]
  }

  /** Deleting `n` characters dispatches `n` Backspace keydown/keyup pairs
      and nothing else. */
  lemma {:induction false} BackspaceEventsAt(n: nat)
    ensures forall i :: 0 <= i < 2 * n ==> BackspaceEvents(n)[i] == if i % 2 == 0 then BackspaceDown else BackspaceUp
  {
    if n > 0 {
      BackspaceEventsAt(n - 1);
    }
  }

  /** The events of inserting `keys`: a keydown, keypress and keyup per
      character, carrying that character and the raw event's shift state. */
  function InsertEvents(keys: string, shift: bool): (r: seq<KeyEvent>)
    ensures |r| == 3 * |keys|
  {
    if keys == [] then [] else InsertEvents(keys[..|keys| - 1], shift) + KeyTriple([keys[|keys| - 1]], shift)
  }

  /** Inserting `keys` dispatches, for the j-th character, its keydown,
      keypress and keyup at positions 3j, 3j+1 and 3j+2. */
  lemma {:induction false} InsertEventsAt(keys: string, shift: bool)
    ensures forall i :: 0 <= i < 3 * |keys| ==> InsertEvents(keys, shift)[i] == KeyTriple([keys[i / 3]], shift)[i % 3]
  {
    if keys != [] {
      var front := keys[..|keys| - 1];
      InsertEventsAt(front, shift);
      var rest, r := InsertEvents(front, shift), InsertEvents(keys, shift);
      assert forall i :: 0 <= i < |rest| ==> r[i] == rest[i] && keys[i / 3] == front[i / 3];
      assert forall i :: |rest| <= i < |r| ==> i / 3 == |keys| - 1 && i % 3 == i - |rest|;
    }
  }

  lemma InsertEventsStep(keys: string, c: nat, shift: bool)
    requires 1 <= c <= |keys|
    ensures InsertEvents(keys[..c], shift) == InsertEvents(keys[..c - 1], shift) + KeyTriple([keys[c - 1]], shift)
  {
    assert keys[..c][..c - 1] == keys[..c - 1];
  }

  /** All key events one rewrite dispatches. */
  function RewriteEvents(r: Rewriting, shift: bool): (events: seq<KeyEvent>)
    ensures |events| == 2 * r.width + 3 * |r.keys|
    ensures events[..2 * r.width] == BackspaceEvents(r.width)
    ensures events[2 * r.width..] == InsertEvents(r.keys, shift)
  {
    BackspaceEvents(r.width) + InsertEvents(r.keys, shift)
  }

  /** The values after each of the first `n` deletion steps. */
  function Deletions(t: string, pos: nat, n: nat): seq<string>
    requires n <= pos <= |t|
  {
    if n == 0 then [] else Deletions(t, pos, n - 1) + [t[..pos - n] + t[pos..]]
  }

  /** The values after each of the first `n` insertion steps. */
  function Insertions(t: string, pos: nat, r: Rewriting, n: nat): seq<string>
    requires r.width <= pos <= |t| && n <= |r.keys|
  {
    if n == 0 then [] else Insertions(t, pos, r, n - 1) + [t[..pos - r.width] + r.keys[..n] + t[pos..]]
  }

  /** The values one rewrite gives the field, step by step. */
  function Steps(t: string, pos: nat, r: Rewriting): seq<string>
    requires r.width <= pos <= |t|
  {
    Deletions(t, pos, r.width) + Insertions(t, pos, r, |r.keys|)
  }

  /** `after` is `before` with the character at `at` removed. */
  predicate RemovesOneAt(before: string, after: string, at: nat) {
    at < |before| && after == before[..at] + before[at + 1..]
  }

  lemma {:induction false} DeletionsAt(t: string, pos: nat, n: nat)
    requires n <= pos <= |t|
    ensures |Deletions(t, pos, n)| == n
    ensures forall c :: 0 <= c < n ==> Deletions(t, pos, n)[c] == t[..pos - (c + 1)] + t[pos..]
  {
    if n > 0 {
      DeletionsAt(t, pos, n - 1);
    }
  }

  lemma {:induction false} InsertionsAt(t: string, pos: nat, r: Rewriting, n: nat)
    requires r.width <= pos <= |t| && n <= |r.keys|
    ensures |Insertions(t, pos, r, n)| == n
    ensures forall c :: 0 <= c < n ==> Insertions(t, pos, r, n)[c] == t[..pos - r.width] + r.keys[..c + 1] + t[pos..]
  {
    if n > 0 {
      InsertionsAt(t, pos, r, n - 1);
    }
  }

  lemma RemovesMiddle(a: string, x: char, b: string, before: string, after: string)
    requires before == a + [x] + b && after == a + b
    ensures RemovesOneAt(before, after, |a|)
  {
    assert before[..|a|] == a;
    assert before[|a| + 1..] == b;
  }

  /** The value after the i-th step of a rewrite (the 0-th is the text before). */
  lemma StepAt(t: string, pos: nat, r: Rewriting, i: nat)
    requires r.width <= pos <= |t| && i <= r.width + |r.keys|
    ensures |Steps(t, pos, r)| == r.width + |r.keys|
    ensures ([t] + Steps(t, pos, r))[i] ==
      if i <= r.width then t[..pos - i] + t[pos..] else t[..pos - r.width] + r.keys[..i - r.width] + t[pos..]
  {
    var d, n := Deletions(t, pos, r.width), Insertions(t, pos, r, |r.keys|);
    DeletionsAt(t, pos, r.width);
    InsertionsAt(t, pos, r, |r.keys|);
    var s := [t] + (d + n);
    if i == 0 {
      assert t[..pos] + t[pos..] == t;
    } else if i <= r.width {
      assert s[i] == d[i - 1];
    } else {
      assert s[i] == n[i - r.width - 1];
    }
  }

  /** Each deletion step removes the character just before the caret. */
  lemma DeletionStepsRemoveOne(t: string, pos: nat, r: Rewriting)
    requires r.width <= pos <= |t|
    ensures |Steps(t, pos, r)| == r.width + |r.keys|
    ensures var s := [t] + Steps(t, pos, r);
      forall i :: 0 <= i < r.width ==> RemovesOneAt(s[i], s[i + 1], pos - 1 - i)
  {
    var s := [t] + Steps(t, pos, r);
    StepAt(t, pos, r, 0);
    forall i | 0 <= i < r.width ensures RemovesOneAt(s[i], s[i + 1], pos - 1 - i) {
      DeletionStepAt(t, pos, r, i);
    }
  }

  /** The deletion step that removes the character `i` places before the caret. */
  lemma DeletionStepAt(t: string, pos: nat, r: Rewriting, i: nat)
    requires r.width <= pos <= |t| && i < r.width
    ensures var s := [t] + Steps(t, pos, r);
      |s| == 1 + r.width + |r.keys| && RemovesOneAt(s[i], s[i + 1], pos - 1 - i)
  {
    var a, x, b := t[..pos - 1 - i], t[pos - 1 - i], t[pos..];
    var s := [t] + Steps(t, pos, r);
    DeletedPrefix(t, pos, r, i);
    DeletedPrefix(t, pos, r, i + 1);
    assert t[..pos - i] == a + [x];
    RemovesMiddle(a, x, b, s[i], s[i + 1]);
  }

  /** The value once `i` characters before the caret are deleted. */
  lemma DeletedPrefix(t: string, pos: nat, r: Rewriting, i: nat)
    requires r.width <= pos <= |t| && i <= r.width
    ensures |Steps(t, pos, r)| == r.width + |r.keys|
    ensures ([t] + Steps(t, pos, r))[i] == t[..pos - i] + t[pos..]
  {
    StepAt(t, pos, r, i);
  }

  /** Each insertion step adds the next mapped character at the caret. */
  lemma InsertionStepsAddOne(t: string, pos: nat, r: Rewriting)
    requires r.width <= pos <= |t|
    ensures |Steps(t, pos, r)| == r.width + |r.keys|
    ensures var s := [t] + Steps(t, pos, r);
      forall i :: r.width <= i < r.width + |r.keys| ==> RemovesOneAt(s[i + 1], s[i], pos - r.width + (i - r.width))
  {
    var s := [t] + Steps(t, pos, r);
    StepAt(t, pos, r, 0);
    forall i | r.width <= i < r.width + |r.keys| ensures RemovesOneAt(s[i + 1], s[i], pos - r.width + (i - r.width)) {
      InsertionStepAt(t, pos, r, i);
    }
  }

  /** The value once the first `c` mapped characters are inserted. */
  lemma InsertedPrefix(t: string, pos: nat, r: Rewriting, c: nat)
    requires r.width <= pos <= |t| && c <= |r.keys|
    ensures |Steps(t, pos, r)| == r.width + |r.keys|
    ensures ([t] + Steps(t, pos, r))[r.width + c] == t[..pos - r.width] + r.keys[..c] + t[pos..]
  {
    StepAt(t, pos, r, r.width + c);
    if c == 0 {
      assert t[..pos - r.width] + r.keys[..0] == t[..pos - r.width];
    }
  }

  /** The insertion step `i` (counting the deletions before it), which adds
      the (i - width)-th mapped character. */
  lemma InsertionStepAt(t: string, pos: nat, r: Rewriting, i: nat)
    requires r.width <= pos <= |t| && r.width <= i < r.width + |r.keys|
    ensures var s := [t] + Steps(t, pos, r);
      |s| == 1 + r.width + |r.keys| && RemovesOneAt(s[i + 1], s[i], pos - r.width + (i - r.width))
  {
    var c := i - r.width;
    var a, x, b := t[..pos - r.width] + r.keys[..c], r.keys[c], t[pos..];
    InsertedPrefix(t, pos, r, c);
    InsertedPrefix(t, pos, r, c + 1);
    assert r.keys[..c + 1] == r.keys[..c] + [x];
    AppendAssociates(t[..pos - r.width], r.keys[..c], [x]);
    var s := [t] + Steps(t, pos, r);
    RemovesMiddle(a, x, b, s[i + 1], s[i]);
  }

  /** Every step of a rewrite changes the field by one character: the
      deletion steps each remove the character before the caret, the
      insertion steps each add the next mapped character at the caret, and
      the last step leaves the final value. */
  lemma EachStepEditsOneCharacter(t: string, pos: nat, r: Rewriting)
    requires r.width <= pos <= |t|
    ensures var s := [t] + Steps(t, pos, r);
      && |s| == 1 + r.width + |r.keys|
      && s[|s| - 1] == Rewritten(t, pos, r)
      && (forall i :: 0 <= i < r.width ==> RemovesOneAt(s[i], s[i + 1], pos - 1 - i))
      && (forall i :: r.width <= i < |s| - 1 ==> RemovesOneAt(s[i + 1], s[i], pos - r.width + (i - r.width)))
  {
    DeletionStepsRemoveOne(t, pos, r);
    InsertionStepsAddOne(t, pos, r);
    StepAt(t, pos, r, r.width + |r.keys|);
    assert r.keys[..|r.keys|] == r.keys;
  }

  /** What a keyup leaves in the field whose text was `t` with the caret at
      `pos`, whose key events were `log0` and whose values were `history0`. */
  ghost predicate Rewrote(e: Element, M: Mapping, t: string, pos: nat, shift: bool,
                          log0: seq<KeyEvent>, history0: seq<string>)
    reads e
  {
    match Decide(M, t, pos)
    case None =>
      e.value == t && e.CaretAt(pos) && e.keyLog == log0 && e.history == history0
    case Some(r) => RewroteAs(e, r, t, pos, shift, log0, history0)
  }

  /** The field after the rewrite `r` of the text `t` with the caret at `pos`. */
  ghost predicate RewroteAs(e: Element, r: Rewriting, t: string, pos: nat, shift: bool,
                            log0: seq<KeyEvent>, history0: seq<string>)
    reads e
  {
    && r.width <= pos <= |t|
    && e.value == Rewritten(t, pos, r)
    && e.CaretAt(pos - r.width + |r.keys|)
    && e.keyLog == log0 + RewriteEvents(r, shift)
    && e.history == history0 + Steps(t, pos, r)
  }

  /** The field after the rewrite `d` decided, if any. */
  function Apply(f: Field, d: Option<Rewriting>, shift: bool): (g: Field)
    requires f.caret <= |f.value| && (d.Some? ==> d.value.width <= f.caret)
    ensures g.caret <= |g.value|
    ensures d.None? ==> g == f
    ensures d.Some? ==>
      && g.value == f.value[..f.caret - d.value.width] + d.value.keys + f.value[f.caret..]
      && g.caret == f.caret - d.value.width + |d.value.keys|
      && g.events == f.events + RewriteEvents(d.value, shift)
  {
    match d
    case None => f
    case Some(r) =>
      RewrittenSplicesWindow(f.value, f.caret, r);
      Field(Rewritten(f.value, f.caret, r), f.caret - r.width + |r.keys|, f.events + RewriteEvents(r, shift))
  }

  /** The keyup rewrite on a field with a caret, as a value: what
      `ApplyMapping` leaves in the field. */
  function Release(M: Mapping, f: Field, shift: bool): (g: Field)
    requires f.caret <= |f.value| && M("").None?
    ensures g.caret <= |g.value|
    ensures Decide(M, f.value, f.caret).None? ==> g == f
    ensures Decide(M, f.value, f.caret).Some? ==>
      var r := Decide(M, f.value, f.caret).value;
      && g.value == f.value[..f.caret - r.width] + r.keys + f.value[f.caret..]
      && g.caret == f.caret - r.width + |r.keys|
      && g.events == f.events + RewriteEvents(r, shift)
  {
    WidthWithinCaret(M, f.value, f.caret);
    Apply(f, Decide(M, f.value, f.caret), shift)
  }

  /** With the caret at the end of the text, the rewritten text ends with
      the mapped keys and the caret stays at the end. */
  lemma ReleaseAtEnd(M: Mapping, t: string, events: seq<KeyEvent>, shift: bool)
    requires M("").None?
    ensures var g := Release(M, Field(t, |t|, events), shift);
      match Decide(M, t, |t|)
      case None => g == Field(t, |t|, events)
      case Some(r) => r.width <= |t| && g == Field(t[..|t| - r.width] + r.keys, |t| - r.width + |r.keys|, events + RewriteEvents(r, shift))
  {
    WidthWithinCaret(M, t, |t|);
    if Decide(M, t, |t|).Some? {
      assert t[|t|..] == [];
    }
  }

  /** A field the method rewrote holds what `Release` computes. */
  lemma RewroteIsRelease(e: Element, M: Mapping, t: string, pos: nat, shift: bool, log0: seq<KeyEvent>, history0: seq<string>)
    requires pos <= |t| && M("").None?
    requires Rewrote(e, M, t, pos, shift, log0, history0)
    ensures var g := Release(M, Field(t, pos, log0), shift);
      e.value == g.value && e.CaretAt(g.caret) && e.keyLog == g.events
  {
    var d := Decide(M, t, pos);
    if d.Some? {
      RewroteAsIsRelease(e, M, d.value, t, pos, shift, log0, history0);
    } else {
      assert e.value == t && e.CaretAt(pos) && e.keyLog == log0;
      ReleaseKeeps(M, t, pos, shift, log0);
    }
  }

  /** The value `Release` computes when no window matches. */
  lemma ReleaseKeeps(M: Mapping, t: string, pos: nat, shift: bool, log0: seq<KeyEvent>)
    requires pos <= |t| && M("").None? && Decide(M, t, pos).None?
    ensures Release(M, Field(t, pos, log0), shift) == Field(t, pos, log0)
  {
  }

  /** The case of `RewroteIsRelease` where the keyup rewrites. */
  lemma RewroteAsIsRelease(e: Element, M: Mapping, r: Rewriting, t: string, pos: nat, shift: bool,
                            log0: seq<KeyEvent>, history0: seq<string>)
    requires pos <= |t| && M("").None? && Decide(M, t, pos) == Some(r)
    requires RewroteAs(e, r, t, pos, shift, log0, history0)
    ensures var g := Release(M, Field(t, pos, log0), shift);
      e.value == g.value && e.CaretAt(g.caret) && e.keyLog == g.events
  {
    ReleaseRewrites(M, r, t, pos, shift, log0);
    var g := Release(M, Field(t, pos, log0), shift);
    assert g.value == e.value && g.caret == pos - r.width + |r.keys| && g.events == e.keyLog;
  }

  /** The value `Release` computes when the keyup rewrites. */
  lemma ReleaseRewrites(M: Mapping, r: Rewriting, t: string, pos: nat, shift: bool, log0: seq<KeyEvent>)
    requires pos <= |t| && M("").None? && Decide(M, t, pos) == Some(r) && r.width <= pos
    ensures Release(M, Field(t, pos, log0), shift) == Field(Rewritten(t, pos, r), pos - r.width + |r.keys|, log0 + RewriteEvents(r, shift))
  {
    RewrittenSplicesWindow(t, pos, r);
  }

  /** The search loop: from 3 down to 1, the first width whose window is a
      key, or 0. */
  method SearchWidth(M: Mapping, t: string, pos: int) returns (l: nat)
    ensures l == MatchWidth(M, t, pos)
  {
    l := 3;
    while l > 0
      invariant l <= 3
      invariant forall k :: l < k <= 3 ==> !Matches(M, t, pos, k)
    {
      if l <= |t| && M(Slice(t, pos - l, pos)).Some? {
        break;
      }
      l := l - 1;
    }
    MatchWidthIsWidest(M, t, pos, l);
  }

  /** Only one width is the widest match. */
  lemma MatchWidthIsWidest(M: Mapping, t: string, pos: int, l: nat)
    requires l <= MaxWidth && (l > 0 ==> Matches(M, t, pos, l))
    requires forall k :: l < k <= MaxWidth ==> !Matches(M, t, pos, k)
    ensures l == MatchWidth(M, t, pos)
  {
  }

  /** The deletion loop: `l` Backspace steps, each removing the character
      before the caret. */
  method DeleteWindow(e: Element, t: string, pos: nat, l: nat)
    requires l <= pos <= |t| && e.value == t && e.CaretAt(pos)
    modifies e`value, e`selStart, e`selEnd, e`keyLog, e`history
    ensures e.value == t[..pos - l] + t[pos..] && e.CaretAt(pos - l) && e.Valid()
    ensures e.keyLog == old(e.keyLog) + BackspaceEvents(l)
    ensures e.history == old(e.history) + Deletions(t, pos, l)
  {
    var c := 1;
    assert t[..pos] + t[pos..] == t;
    while c <= l
      invariant 1 <= c <= l + 1
      invariant e.value == t[..pos - (c - 1)] + t[pos..]
      invariant e.CaretAt(pos - (c - 1))
      invariant e.keyLog == old(e.keyLog) + BackspaceEvents(c - 1)
      invariant e.history == old(e.history) + Deletions(t, pos, c - 1)
    {
      DeleteOne(e, t, pos, c);
      c := c + 1;
    }
  }

  /** One pass of the deletion loop: the field loses the c-th character
      before the original caret, between a Backspace keydown and keyup. */
  method DeleteOne(e: Element, t: string, pos: nat, c: nat)
    requires 1 <= c <= pos <= |t| && e.CaretAt(pos - (c - 1))
    modifies e`value, e`selStart, e`selEnd, e`keyLog, e`history
    ensures e.value == t[..pos - c] + t[pos..] && e.CaretAt(pos - c)
    ensures e.keyLog == old(e.keyLog) + [BackspaceDown, BackspaceUp]
    ensures e.history == old(e.history) + [e.value]
  {
    e.keyLog := e.keyLog + [BackspaceDown];
    e.value := Slice(t, 0, pos - c) + Slice(t, pos, |t|);
    e.history := e.history + [e.value];
    e.selStart := Some(pos - c);
    e.selEnd := Some(pos - c);
    e.keyLog := e.keyLog + [BackspaceUp];
  }

  /** The insertion loop: one step per mapped character, each adding it at
      the caret. */
  method InsertKeys(e: Element, t: string, pos: nat, r: Rewriting, shift: bool)
    requires r.width <= pos <= |t| && e.value == t[..pos - r.width] + t[pos..] && e.CaretAt(pos - r.width)
    modifies e`value, e`selStart, e`selEnd, e`keyLog, e`history
    ensures e.value == Rewritten(t, pos, r) && e.CaretAt(pos - r.width + |r.keys|) && e.Valid()
    ensures e.keyLog == old(e.keyLog) + InsertEvents(r.keys, shift)
    ensures e.history == old(e.history) + Insertions(t, pos, r, |r.keys|)
  {
    var n := 0;
    assert t[..pos - r.width] + r.keys[..0] + t[pos..] == t[..pos - r.width] + t[pos..];
    while n < |r.keys|
      invariant n <= |r.keys|
      invariant e.value == t[..pos - r.width] + r.keys[..n] + t[pos..]
      invariant e.CaretAt(pos - r.width + n)
      invariant e.keyLog == old(e.keyLog) + InsertEvents(r.keys[..n], shift)
      invariant e.history == old(e.history) + Insertions(t, pos, r, n)
    {
      InsertKey(e, t, pos, r, n + 1, shift);
      InsertEventsGrow(old(e.keyLog), r.keys, n, shift);
      InsertionsGrow(old(e.history), t, pos, r, n);
      n := n + 1;
    }
    assert r.keys[..|r.keys|] == r.keys;
    RewrittenSplicesWindow(t, pos, r);
  }

  lemma InsertEventsGrow(log: seq<KeyEvent>, keys: string, n: nat, shift: bool)
    requires n < |keys|
    ensures log + InsertEvents(keys[..n], shift) + KeyTriple([keys[n]], shift) == log + InsertEvents(keys[..n + 1], shift)
  {
    InsertEventsStep(keys, n + 1, shift);
    AppendAssociates(log, InsertEvents(keys[..n], shift), KeyTriple([keys[n]], shift));
  }

  lemma InsertionsGrow(history: seq<string>, t: string, pos: nat, r: Rewriting, n: nat)
    requires r.width <= pos <= |t| && n < |r.keys|
    ensures history + Insertions(t, pos, r, n) + [t[..pos - r.width] + r.keys[..n + 1] + t[pos..]]
         == history + Insertions(t, pos, r, n + 1)
  {
    AppendAssociates(history, Insertions(t, pos, r, n), [t[..pos - r.width] + r.keys[..n + 1] + t[pos..]]);
  }

  /** One pass of the insertion loop: the field gets the first `c` mapped
      characters between the text before the window and the text after the
      caret, and the c-th character's keydown, keypress and keyup are
      dispatched around the change. */
  method InsertKey(e: Element, t: string, pos: nat, r: Rewriting, c: nat, shift: bool)
    requires r.width <= pos <= |t| && 1 <= c <= |r.keys|
    requires e.CaretAt(pos - r.width + (c - 1))
    modifies e`value, e`selStart, e`selEnd, e`keyLog, e`history
    ensures e.value == t[..pos - r.width] + r.keys[..c] + t[pos..] && e.CaretAt(pos - r.width + c)
    ensures e.keyLog == old(e.keyLog) + KeyTriple([r.keys[c - 1]], shift)
    ensures e.history == old(e.history) + [e.value]
  {
    var l, keys := r.width, r.keys;
    InsertionValue(t, pos, r, c);
    e.keyLog := e.keyLog + [KeyEvent(KeyDown, [keys[c - 1]], shift)];
    e.value := Slice(t, 0, pos - l) + Slice(keys, 0, c) + Slice(t, pos, |t|);
    e.history := e.history + [e.value];
    e.keyLog := e.keyLog + [KeyEvent(KeyPress, [keys[c - 1]], shift)];
    e.selStart := Some(pos - l + c);
    e.selEnd := Some(pos - l + c);
    e.keyLog := e.keyLog + [KeyEvent(KeyUp, [keys[c - 1]], shift)];
    KeyTripleAppended(old(e.keyLog), [keys[c - 1]], shift);
  }

  /** Dispatching a key's keydown, keypress and keyup one after the other
      logs its triple. */
  lemma KeyTripleAppended(log: seq<KeyEvent>, key: string, shift: bool)
    ensures log + [KeyEvent(KeyDown, key, shift)] + [KeyEvent(KeyPress, key, shift)] + [KeyEvent(KeyUp, key, shift)]
         == log + KeyTriple(key, shift)
  {
  }

  /** The value the c-th insertion step gives the field, as the slices
      compute it, and its place in the step sequence. */
  lemma InsertionValue(t: string, pos: nat, r: Rewriting, c: nat)
    requires r.width <= pos <= |t| && 1 <= c <= |r.keys|
    ensures Slice(t, 0, pos - r.width) + Slice(r.keys, 0, c) + Slice(t, pos, |t|) == t[..pos - r.width] + r.keys[..c] + t[pos..]
    ensures Insertions(t, pos, r, c) == Insertions(t, pos, r, c - 1) + [t[..pos - r.width] + r.keys[..c] + t[pos..]]
  {
  }

  /** The keyup rewrite on a field with a caret (collapsed selection): the
      search, then the deletions, then the insertions. */
  method ApplyMapping(e: Element, M: Mapping, shift: bool)
    requires e.Valid() && M("").None?
    requires e.selStart.Some? && e.selEnd == e.selStart
    modifies e`value, e`selStart, e`selEnd, e`keyLog, e`history
    ensures e.Valid()
    ensures Rewrote(e, M, old(e.value), old(e.selStart.value), shift, old(e.keyLog), old(e.history))
  {
    var pos := e.selStart.value;
    var t := e.value;
    var l := SearchWidth(M, t, pos);
    if l == 0 {
      assert Decide(M, t, pos) == None;
      return;
    }
    var keys := M(Slice(t, pos - l, pos)).value;
    var r := Rewriting(l, keys);
    assert Decide(M, t, pos) == Some(r);
    WidthWithinCaret(M, t, pos);
    ghost var log0, history0 := e.keyLog, e.history;
    Rewrite(e, t, pos, r, shift);
    assert RewroteAs(e, r, t, pos, shift, log0, history0);
  }

  /** The deletions then the insertions of one rewrite. */
  method Rewrite(e: Element, t: string, pos: nat, r: Rewriting, shift: bool)
    requires r.width <= pos <= |t| && e.value == t && e.CaretAt(pos)
    modifies e`value, e`selStart, e`selEnd, e`keyLog, e`history
    ensures e.Valid() && e.value == Rewritten(t, pos, r) && e.CaretAt(pos - r.width + |r.keys|)
    ensures e.keyLog == old(e.keyLog) + RewriteEvents(r, shift)
    ensures e.history == old(e.history) + Steps(t, pos, r)
  {
    DeleteWindow(e, t, pos, r.width);
    InsertKeys(e, t, pos, r, shift);
    AppendAssociates(old(e.keyLog), BackspaceEvents(r.width), InsertEvents(r.keys, shift));
    AppendAssociates(old(e.history), Deletions(t, pos, r.width), Insertions(t, pos, r, |r.keys|));
  }

  lemma AppendAssociates<T>(a: seq<T>, b: seq<T>, c: seq<T>)
    ensures (a + b) + c == a + (b + c)
  {
  }
}
