/** The parts of a DOM text field the extension reads and writes, and the
    browser's own reaction to a typed key. */
module Dom {
  import opened Js

  datatype KeyKind = KeyDown | KeyPress | KeyUp

  /** A keyboard event as a listener on the field observes it. */
  datatype KeyEvent = KeyEvent(kind: KeyKind, key: string, shiftKey: bool)

  /** A keyboard event delivered to the extension's listener. */
  datatype RawEvent = RawEvent(kind: KeyKind, key: string, altKey: bool, ctrlKey: bool, metaKey: bool, shiftKey: bool)

  /** Alt, Ctrl or Meta is held: the extension leaves such events alone. */
  predicate Modified(ev: RawEvent) {
    ev.altKey || ev.ctrlKey || ev.metaKey
  }

  datatype FocusChange = Blurred | Focused

  /** The element's tag; an `input` carries its `type` attribute. */
  datatype Tag = TextArea | Input(typeAttr: Option<string>) | OtherTag

  /** A text field (a textarea, an input or an editing host), with its
      attributes, value, selection and the events observed on it. */
  class Element {
    const tag: Tag
    /** The `lang` attribute: the field's static language. */
    const lang: Option<string>
    /** The `contentEditable` property ("true", "false", "inherit", ...). */
    const contentEditable: string
    /** The `isContentEditable` property (editable, possibly by inheritance). */
    const isContentEditable: bool
    /** The `kc-lang` attribute: the user's override of the language. */
    var kcLang: Option<string>
    var value: string
    /** `selectionStart` and `selectionEnd`; `None` when undefined. */
    var selStart: Option<nat>
    var selEnd: Option<nat>
    /** Whether the key mapper's keydown and keyup listeners are installed. */
    var listening: bool
    /** Key events dispatched on the element, in order. */
    var keyLog: seq<KeyEvent>
    var focusLog: seq<FocusChange>
    /** Every value the field has been given, in order. */
    ghost var history: seq<string>

    ghost predicate Valid()
      reads this
    {
      && (selStart.Some? ==> selStart.value <= |value|)
      && (selEnd.Some? ==> selEnd.value <= |value|)
      && (selStart.Some? && selEnd.Some? ==> selStart.value <= selEnd.value)
    }

    /** A caret (collapsed selection) at `pos`. */
    ghost predicate CaretAt(pos: nat)
      reads this
    {
      selStart == Some(pos) && selEnd == Some(pos)
    }

    constructor (tag: Tag, lang: Option<string>, contentEditable: string, isContentEditable: bool)
      ensures Valid() && CaretAt(0)
      ensures this.tag == tag && this.lang == lang
      ensures this.contentEditable == contentEditable && this.isContentEditable == isContentEditable
      ensures kcLang == None && value == "" && !listening
      ensures keyLog == [] && focusLog == [] && history == []
    {
      this.tag := tag;
      this.lang := lang;
      this.contentEditable := contentEditable;
      this.isContentEditable := isContentEditable;
      kcLang := None;
      value := "";
      selStart, selEnd := Some(0), Some(0);
      listening := false;
      keyLog, focusLog := [], [];
      history := [];
    }

    /** The browser's default action for a printable key: keydown and
        keypress are observed, the character replaces the selection, the
        caret follows it, and keyup is observed. The extension's keyup
        listener runs after this. */
    method Type(c: char, shift: bool)
      requires Valid() && selStart.Some? && selEnd.Some?
      modifies this`value, this`selStart, this`selEnd, this`keyLog, this`history
      ensures Valid()
      ensures value == old(value[..selStart.value]) + [c] + old(value[selEnd.value..])
      ensures CaretAt(old(selStart.value) + 1)
      ensures keyLog == old(keyLog) + KeyTriple([c], shift)
      ensures history == old(history) + [value]
    {
      var s, e := selStart.value, selEnd.value;
      keyLog := keyLog + [KeyEvent(KeyDown, [c], shift), KeyEvent(KeyPress, [c], shift)];
      value := value[..s] + [c] + value[e..];
      history := history + [value];
      selStart, selEnd := Some(s + 1), Some(s + 1);
      keyLog := keyLog + [KeyEvent(KeyUp, [c], shift)];
    }

    /** Emptying the field, as a test harness does between scenarios. */
    method Clear()
      modifies this`value, this`selStart, this`selEnd, this`history
      ensures Valid() && CaretAt(0) && value == ""
      ensures history == old(history) + [""]
    {
      value := "";
      history := history + [value];
      selStart, selEnd := Some(0), Some(0);
    }

    method Blur()
      modifies this`focusLog
      ensures focusLog == old(focusLog) + [Blurred]
    {
      focusLog := focusLog + [Blurred];
    }

    /** Focusing the field; the browser may move the caret, to `place`. */
    method Focus(place: nat)
      requires place <= |value|
      modifies this`focusLog, this`selStart, this`selEnd
      ensures focusLog == old(focusLog) + [Focused] && CaretAt(place)
    {
      focusLog := focusLog + [Focused];
      selStart, selEnd := Some(place), Some(place);
    }

    /** Nothing is selected: the selection is a caret. */
    ghost predicate Collapsed()
      reads this
    {
      selStart.Some? && selEnd == selStart
    }
  }

  /** A text field with a caret, and the key events observed on it, as a
      value. */
  datatype Field = Field(value: string, caret: nat, events: seq<KeyEvent>)

  /** The browser's default action for a printable key typed at the caret:
      the character is inserted, the caret follows it, and its keydown,
      keypress and keyup are observed (`Element.Type` on a caret). */
  function Press(f: Field, c: char, shift: bool): (g: Field)
    requires f.caret <= |f.value|
    ensures g.caret <= |g.value| && |g.value| == |f.value| + 1
    ensures g.value[..g.caret] == f.value[..f.caret] + [c] && g.value[g.caret..] == f.value[f.caret..]
    ensures g.events == f.events + KeyTriple([c], shift)
  {
    var v := f.value[..f.caret] + [c] + f.value[f.caret..];
    assert v[..f.caret + 1] == f.value[..f.caret] + [c];
    assert v[f.caret + 1..] == f.value[f.caret..];
    Field(v, f.caret + 1, f.events + KeyTriple([c], shift))
  }

  /** The keydown, keypress and keyup of one key, as typing it produces. */
  function KeyTriple(key: string, shift: bool): (r: seq<KeyEvent>)
    ensures |r| == 3 && r[0].kind == KeyDown && r[1].kind == KeyPress && r[2].kind == KeyUp
    ensures forall i :: 0 <= i < 3 ==> r[i].key == key && r[i].shiftKey == shift
  {
    [KeyEvent(KeyDown, key, shift), KeyEvent(KeyPress, key, shift), KeyEvent(KeyUp, key, shift)]
  }
}
