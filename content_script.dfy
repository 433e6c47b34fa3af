/** The content script: the mapping cache, the key mapper's keyboard
    listeners, the search for the text fields to equip, and the handler of
    the context menu's language commands. */
module ContentScript {
  import opened Js
  import opened Dom
  import opened Rewriter
  import opened Protocol

  /** A cache entry: `null` while the table is being fetched, then the table. */
  datatype CacheEntry = Pending | Loaded(table: map<string, string>)

  /** The mapping cache, by mapping name; a name it lacks is `undefined`. */
  type Cache = map<string, CacheEntry>

  /** No loaded table has the empty string as a key. */
  predicate NoEmptyKeys(cache: Cache) {
    forall k <- cache :: cache[k].Loaded? ==> "" !in cache[k].table
  }

  /** A fetched table as the rewriter consults it: `mapping[w]`. */
  function AsMapping(table: map<string, string>): (M: Mapping)
    ensures forall w :: M(w).Some? <==> w in table
    ensures forall w <- table :: M(w) == Some(table[w])
  {
    w => if w in table then Some(table[w]) else None
  }

  /** The name of the mapping a field uses: its `kc-lang` override when that
      is set and non-empty, otherwise its `lang` attribute. */
  function MappingName(kcLang: Option<string>, lang: Option<string>): (name: Option<string>)
    ensures Truthy(kcLang) ==> name == kcLang
    ensures !Truthy(kcLang) ==> name == lang
  {
    if Truthy(kcLang) then kcLang else lang
  }

  /** The table a keyup rewrites with: the cache entry of the mapping name,
      when it is loaded. A missing name indexes the cache as "null". */
  function ActiveTable(cache: Cache, kcLang: Option<string>, lang: Option<string>): (t: Option<map<string, string>>)
    ensures var key := PropertyKey(MappingName(kcLang, lang));
      && (t.Some? <==> key in cache && cache[key].Loaded?)
      && (t.Some? ==> cache[key] == Loaded(t.value))
  {
    var key := PropertyKey(MappingName(kcLang, lang));
    if key in cache && cache[key].Loaded? then Some(cache[key].table) else None
  }

  /** The cache after `loadMapping(name)`: an absent entry becomes pending;
      a pending or loaded entry stays as it is. */
  function Loading(cache: Cache, name: string): (r: Cache)
    ensures r.Keys == cache.Keys + {name}
    ensures forall k <- cache :: r[k] == cache[k]
    ensures name !in cache ==> r[name] == Pending
  {
    if name in cache then cache else cache[name := Pending]
  }

  /** Loading a name twice is loading it once. */
  lemma LoadingIdempotent(cache: Cache, name: string)
    ensures Loading(Loading(cache, name), name) == Loading(cache, name)
  {
  }

  /** `after` is `before` with every name of `names` loading or loaded. */
  predicate Extends(before: Cache, after: Cache, names: set<string>) {
    && after.Keys == before.Keys + names
    && (forall k <- before :: after[k] == before[k])
    && (forall k <- after :: k !in before ==> after[k] == Pending)
  }

  lemma ExtendsByLoading(c0: Cache, c1: Cache, names: set<string>, name: string)
    requires Extends(c0, c1, names)
    ensures Extends(c0, Loading(c1, name), names + {name})
  {
  }

  lemma ExtendsTransitive(c0: Cache, c1: Cache, c2: Cache, n1: set<string>, n2: set<string>)
    requires Extends(c0, c1, n1) && Extends(c1, c2, n2)
    ensures Extends(c0, c2, n1 + n2)
  {
  }

  /** The three passes of the search for text fields. */
  datatype Pass = TextAreas | TextInputs | Editables

  /** Whether a pass visits `f`: the textareas, the inputs whose `type`
      attribute is "text", the elements whose `contentEditable` is "true". */
  predicate InPass(f: Element, p: Pass) {
    match p
    case TextAreas => f.tag == TextArea
    case TextInputs => f.tag == Input(Some("text"))
    case Editables => f.contentEditable == "true"
  }

  /** Whether the search equips `f` with the key mapper: one of the passes
      visits it and its `lang` is a listed code. */
  predicate Qualifies(list: seq<MappingInfo>, f: Element) {
    (InPass(f, TextAreas) || InPass(f, TextInputs) || InPass(f, Editables)) && Listed(list, f.lang)
  }

  /** The languages whose tables a pass of the search loads. */
  function PassLangs(list: seq<MappingInfo>, fields: seq<Element>, p: Pass): set<string> {
    set f <- fields | InPass(f, p) && Listed(list, f.lang) :: f.lang.value
  }

  /** The languages whose tables the search loads. */
  function QualifyingLangs(list: seq<MappingInfo>, fields: seq<Element>): set<string> {
    set f <- fields | Qualifies(list, f) :: f.lang.value
  }

  lemma PassLangsStep(list: seq<MappingInfo>, fields: seq<Element>, p: Pass, i: nat)
    requires i < |fields|
    ensures PassLangs(list, fields[..i + 1], p) ==
      PassLangs(list, fields[..i], p) + if InPass(fields[i], p) && Listed(list, fields[i].lang) then {fields[i].lang.value} else {}
  {
    assert fields[..i + 1] == fields[..i] + [fields[i]];
  }

  lemma PassesCoverQualifying(list: seq<MappingInfo>, fields: seq<Element>)
    ensures PassLangs(list, fields, TextAreas) + PassLangs(list, fields, TextInputs) + PassLangs(list, fields, Editables)
         == QualifyingLangs(list, fields)
  {
  }

  /** An element the walk to the editing host passes over: editable only
      because an ancestor is. */
  predicate Skippable(f: Element) {
    f.isContentEditable && f.contentEditable != "true"
  }

  /** Where the walk up `chain` (an element and its ancestors, nearest first)
      stops: at the first element it does not pass over, or at |chain| when
      it runs past the root. */
  function HostIndex(chain: seq<Element>): (i: nat)
    ensures i <= |chain|
    ensures forall j :: 0 <= j < i ==> Skippable(chain[j])
    ensures i < |chain| ==> !Skippable(chain[i])
  {
    if chain == [] || !Skippable(chain[0]) then 0 else 1 + HostIndex(chain[1..])
  }

  /** The walk up the parent chain from the message's target element. */
  method FindEditingHost(chain: seq<Element>) returns (i: nat)
    ensures i == HostIndex(chain)
  {
    i := 0;
    while i < |chain| && Skippable(chain[i])
      invariant i <= |chain|
      invariant HostIndex(chain) == i + HostIndex(chain[i..])
    {
      assert chain[i..][1..] == chain[i + 1..];
      i := i + 1;
    }
  }

  /** The language state of the field a command addresses: its `lang` and
      `kc-lang` attributes and whether its listeners are installed. */
  datatype LangState = LangState(lang: Option<string>, kcLang: Option<string>, listening: bool)

  /** What a command does to the addressed field, and the reply it sends.
      Setting an override stores it and then looks up its list entry for the
      flag icon: with no entry the icon's `mapping.icon` throws, and the
      handler stops there. With an entry it installs the listeners when there
      was no override and the field's own language is not listed. Removing an
      override uninstalls them when there was one and the own language is
      not listed. */
  function Respond(list: seq<MappingInfo>, s: LangState, cmd: Command): (r: (LangState, Option<Reply>))
    ensures r.0.lang == s.lang
    ensures r.1.Some? <==> cmd.GetLang?
    ensures cmd.GetLang? ==> r.0 == s && r.1.value == Reply(s.lang, s.kcLang)
    ensures cmd.SetLang? ==> r.0.kcLang == Some(cmd.lang)
    ensures cmd.SetLang? ==>
      (r.0.listening <==> s.listening || (Listed(list, Some(cmd.lang)) && !Truthy(s.kcLang) && !Listed(list, s.lang)))
    ensures cmd.RemoveLang? ==> r.0.kcLang == None
    ensures cmd.RemoveLang? ==> (r.0.listening <==> s.listening && !(Truthy(s.kcLang) && !Listed(list, s.lang)))
    ensures cmd.OtherCommand? ==> r.0 == s
  {
    match cmd
    case GetLang => (s, Some(Reply(s.lang, s.kcLang)))
    case SetLang(lang) =>
      var install := Listed(list, Some(lang)) && !Truthy(s.kcLang) && !Listed(list, s.lang);
      (s.(kcLang := Some(lang), listening := s.listening || install), None)
    case RemoveLang =>
      var uninstall := Truthy(s.kcLang) && !Listed(list, s.lang);
      (s.(kcLang := None, listening := s.listening && !uninstall), None)
    case OtherCommand => (s, None)
  }

  /** The state after a series of commands. */
  function RespondAll(list: seq<MappingInfo>, s: LangState, cmds: seq<Command>): LangState
    decreases |cmds|
  {
    if cmds == [] then s else RespondAll(list, Respond(list, s, cmds[0]).0, cmds[1..])
  }

  /** A field listens exactly when its own language is listed or it carries
      a non-empty override: the state the search and the commands aim at. */
  predicate Installed(list: seq<MappingInfo>, s: LangState) {
    s.listening == (Listed(list, s.lang) || Truthy(s.kcLang))
  }

  /** `GET_LANG` after `SET_LANG` reports the new override. */
  lemma GetAfterSet(list: seq<MappingInfo>, s: LangState, code: string)
    ensures Respond(list, Respond(list, s, SetLang(code)).0, GetLang).1 == Some(Reply(s.lang, Some(code)))
  {
  }

  /** `GET_LANG` after `REMOVE_LANG` reports no override. */
  lemma GetAfterRemove(list: seq<MappingInfo>, s: LangState)
    ensures Respond(list, Respond(list, s, RemoveLang).0, GetLang).1 == Some(Reply(s.lang, None))
  {
  }

  /** Every command keeps a field's listeners in step with its languages, as
      long as the overrides it sets are non-empty listed codes (as the
      menu's are). */
  lemma RespondKeepsInstalled(list: seq<MappingInfo>, s: LangState, cmd: Command)
    requires Installed(list, s) && (cmd.SetLang? ==> cmd.lang != "" && Listed(list, Some(cmd.lang)))
    ensures Installed(list, Respond(list, s, cmd).0)
  {
  }

  lemma {:induction false} CommandsKeepInstalled(list: seq<MappingInfo>, s: LangState, cmds: seq<Command>)
    requires Installed(list, s)
    requires forall k :: 0 <= k < |cmds| && cmds[k].SetLang? ==> cmds[k].lang != "" && Listed(list, Some(cmds[k].lang))
    ensures Installed(list, RespondAll(list, s, cmds))
    decreases |cmds|
  {
    if cmds != [] {
      RespondKeepsInstalled(list, s, cmds[0]);
      CommandsKeepInstalled(list, Respond(list, s, cmds[0]).0, cmds[1..]);
    }
  }

  /** After `SET_LANG` with a non-empty code, keyups use that code's table,
      and the field listens exactly when it did before or the code is listed:
      an unlisted code throws before the listeners are installed. */
  lemma SetSelectsOverride(list: seq<MappingInfo>, s: LangState, code: string)
    requires Installed(list, s) && code != ""
    ensures var t := Respond(list, s, SetLang(code)).0;
      && MappingName(t.kcLang, t.lang) == Some(code)
      && (t.listening <==> s.listening || Listed(list, Some(code)))
  {
  }

  /** A field listens only for a reason: its own language is listed or it
      carries a non-empty override. */
  predicate Justified(list: seq<MappingInfo>, s: LangState) {
    s.listening ==> Listed(list, s.lang) || Truthy(s.kcLang)
  }

  /** Every series of commands with non-empty codes, listed or not, keeps a
      field from listening without a reason. */
  lemma {:induction false} CommandsKeepJustified(list: seq<MappingInfo>, s: LangState, cmds: seq<Command>)
    requires Justified(list, s)
    requires forall k :: 0 <= k < |cmds| && cmds[k].SetLang? ==> cmds[k].lang != ""
    ensures Justified(list, RespondAll(list, s, cmds))
    decreases |cmds|
  {
    if cmds != [] {
      CommandsKeepJustified(list, Respond(list, s, cmds[0]).0, cmds[1..]);
    }
  }

  /** An unlisted override on a field that did not listen leaves it deaf
      while `kc-lang` names the code: the invariant `Installed` is lost. */
  lemma UnlistedSetLeavesDeaf(list: seq<MappingInfo>, s: LangState, code: string)
    requires Installed(list, s) && !s.listening && code != "" && !Listed(list, Some(code))
    ensures var t := Respond(list, s, SetLang(code)).0;
      !t.listening && t.kcLang == Some(code) && !Installed(list, t)
  {
  }

  /** After `REMOVE_LANG`, keyups use the field's own language again, and the
      field listens exactly when that language is listed. */
  lemma RemoveRestoresDefault(list: seq<MappingInfo>, s: LangState)
    requires Installed(list, s)
    ensures var t := Respond(list, s, RemoveLang).0;
      MappingName(t.kcLang, t.lang) == s.lang && (t.listening <==> Listed(list, s.lang))
  {
  }

  /** The effect of a keydown on the field: for Enter, a blur and a focus,
      with the selection as it was before them. */
  twostate predicate KeyDownHandled(e: Element, ev: RawEvent)
    reads e
  {
    && e.value == old(e.value) && e.keyLog == old(e.keyLog) && e.history == old(e.history)
    && e.selStart == old(e.selStart) && e.selEnd == old(e.selEnd)
    && e.focusLog == old(e.focusLog) + (if ev.key == "Enter" then [Blurred, Focused] else [])
  }

  /** The effect of a keyup on the field: the rewrite, when the field's
      table is loaded and nothing is selected; otherwise nothing. */
  twostate predicate KeyUpHandled(e: Element, cache: Cache, ev: RawEvent)
    reads e
  {
    var table := ActiveTable(cache, e.kcLang, e.lang);
    && e.focusLog == old(e.focusLog)
    && if table.Some? && old(e.Collapsed()) then
         Rewrote(e, AsMapping(table.value), old(e.value), old(e.selStart.value), ev.shiftKey, old(e.keyLog), old(e.history))
       else
         && e.value == old(e.value) && e.selStart == old(e.selStart) && e.selEnd == old(e.selEnd)
         && e.keyLog == old(e.keyLog) && e.history == old(e.history)
  }

  /** The key mapper of one page: the cache and the list it was given. */
  class KeyMapper {
    var mappings: Cache
    const list: seq<MappingInfo>

    ghost predicate Valid()
      reads this
    {
      NoEmptyKeys(mappings)
    }

    constructor (list: seq<MappingInfo>)
      ensures Valid() && mappings == map[] && this.list == list
    {
      mappings := map[];
      this.list := list;
    }

    /** `loadMapping(name)`: the fetch itself is left to `MappingFetched`. */
    method LoadMapping(name: string)
      requires Valid()
      modifies this`mappings
      ensures Valid() && mappings == Loading(old(mappings), name)
    {
      if name !in mappings {
        mappings := mappings[name := Pending];
      }
    }

    /** The completion of the fetch `loadMapping` started. */
    method MappingFetched(name: string, table: map<string, string>)
      requires Valid() && "" !in table
      modifies this`mappings
      ensures Valid() && mappings == old(mappings)[name := Loaded(table)]
    {
      mappings := mappings[name := Loaded(table)];
    }

    /** The listener's entry point: events with Alt, Ctrl or Meta held are
        ignored; keydowns and keyups go to their handlers. */
    method HandleEvent(e: Element, ev: RawEvent, place: nat)
      requires Valid() && e.Valid() && place <= |e.value|
      modifies e`value, e`selStart, e`selEnd, e`keyLog, e`history, e`focusLog
      ensures e.Valid()
      ensures Modified(ev) || ev.kind == KeyPress ==> unchanged(e)
      ensures !Modified(ev) && ev.kind == KeyDown ==> KeyDownHandled(e, ev)
      ensures !Modified(ev) && ev.kind == KeyUp ==> KeyUpHandled(e, mappings, ev)
    {
      if ev.altKey || ev.ctrlKey || ev.metaKey {
        return;
      }
      if ev.kind == KeyDown {
        OnKeyDown(e, ev, place);
      }
      if ev.kind == KeyUp {
        OnKeyUp(e, ev);
      }
    }

    /** Enter blurs and refocuses the field (some sites need it); the focus
        may move the caret, to `place`, and the selection is put back. */
    method OnKeyDown(e: Element, ev: RawEvent, place: nat)
      requires e.Valid() && place <= |e.value|
      modifies e`selStart, e`selEnd, e`focusLog
      ensures e.Valid() && KeyDownHandled(e, ev)
    {
      if ev.key != "Enter" {
        return;
      }
      var posStart, posEnd := e.selStart, e.selEnd;
      e.Blur();
      e.Focus(place);
      e.selStart := posStart;
      e.selEnd := posEnd;
    }

    /** The rewrite on keyup, when the field's table is loaded and nothing is
        selected. */
    method OnKeyUp(e: Element, ev: RawEvent)
      requires Valid() && e.Valid()
      modifies e`value, e`selStart, e`selEnd, e`keyLog, e`history
      ensures e.Valid() && KeyUpHandled(e, mappings, ev)
    {
      var name := e.kcLang;
      if !Truthy(name) {
        name := e.lang;
      }
      var key := PropertyKey(name);
      if key !in mappings {
        return;
      } else if mappings[key].Pending? {
        return;
      }
      var table := mappings[key].table;
      var posStart, posEnd := e.selStart, e.selEnd;
      if posStart.None? || posEnd.None? || posStart.value != posEnd.value {
        return;
      }
      assert ActiveTable(mappings, e.kcLang, e.lang) == Some(table);
      ApplyMapping(e, AsMapping(table), ev.shiftKey);
    }

    /** `list.forEach(...)` for one field: every entry whose code is the
        field's `lang` loads its table and installs the listeners. */
    method Equip(f: Element)
      requires Valid()
      modifies this`mappings, f`listening
      ensures Valid()
      ensures f.listening == (old(f.listening) || Listed(list, f.lang))
      ensures mappings == if Listed(list, f.lang) then Loading(old(mappings), f.lang.value) else old(mappings)
    {
      var j := 0;
      while j < |list|
        invariant j <= |list| && Valid()
        invariant f.listening == (old(f.listening) || Listed(list[..j], f.lang))
        invariant mappings == if Listed(list[..j], f.lang) then Loading(old(mappings), f.lang.value) else old(mappings)
      {
        assert list[..j + 1] == list[..j] + [list[j]];
        FindAppend(list[..j], list[j], f.lang);
        if f.lang == Some(list[j].code) {
          LoadMapping(list[j].code);
          f.listening := true;
        }
        j := j + 1;
      }
      assert list[..j] == list;
    }

    /** One pass of the search: every field the pass visits is equipped. */
    method SearchPass(fields: seq<Element>, p: Pass)
      requires Valid()
      modifies this`mappings, (set f <- fields)`listening
      ensures Valid()
      ensures forall f <- fields :: f.listening == (old(f.listening) || (InPass(f, p) && Listed(list, f.lang)))
      ensures Extends(old(mappings), mappings, PassLangs(list, fields, p))
    {
      var i := 0;
      while i < |fields|
        invariant i <= |fields| && Valid()
        invariant forall f <- fields :: f.listening == (old(f.listening) || (f in fields[..i] && InPass(f, p) && Listed(list, f.lang)))
        invariant Extends(old(mappings), mappings, PassLangs(list, fields[..i], p))
      {
        var f := fields[i];
        PassLangsStep(list, fields, p, i);
        assert forall g :: g in fields[..i + 1] <==> g in fields[..i] || g == f by {
          assert fields[..i + 1] == fields[..i] + [f];
        }
        ghost var before := mappings;
        Visit(f, p);
        if InPass(f, p) && Listed(list, f.lang) {
          ExtendsByLoading(old(mappings), before, PassLangs(list, fields[..i], p), f.lang.value);
        }
        i := i + 1;
      }
      assert fields[..i] == fields;
    }

    /** A field met by a pass: equipped when the pass visits it. */
    method Visit(f: Element, p: Pass)
      requires Valid()
      modifies this`mappings, f`listening
      ensures Valid()
      ensures f.listening == (old(f.listening) || (InPass(f, p) && Listed(list, f.lang)))
      ensures mappings == if InPass(f, p) && Listed(list, f.lang) then Loading(old(mappings), f.lang.value) else old(mappings)
    {
      if InPass(f, p) {
        Equip(f);
      }
    }

    /** `searchTextFields`: the textarea pass, the text input pass and the
        editing host pass. */
    method SearchTextFields(fields: seq<Element>)
      requires Valid()
      modifies this`mappings, (set f <- fields)`listening
      ensures Valid()
      ensures forall f <- fields :: f.listening == (old(f.listening) || Qualifies(list, f))
      ensures Extends(old(mappings), mappings, QualifyingLangs(list, fields))
    {
      SearchPass(fields, TextAreas);
      ghost var c1 := mappings;
      SearchPass(fields, TextInputs);
      ExtendsTransitive(old(mappings), c1, mappings, PassLangs(list, fields, TextAreas), PassLangs(list, fields, TextInputs));
      ghost var c2 := mappings;
      SearchPass(fields, Editables);
      ExtendsTransitive(old(mappings), c2, mappings,
        PassLangs(list, fields, TextAreas) + PassLangs(list, fields, TextInputs), PassLangs(list, fields, Editables));
      PassesCoverQualifying(list, fields);
    }

    /** The command handler: the walk to the editing host, then the command
        on it. Nothing happens when the walk runs past the root. */
    method OnMessage(chain: seq<Element>, cmd: Command) returns (reply: Option<Reply>)
      requires Valid()
      modifies this`mappings, (set f <- chain)`kcLang, (set f <- chain)`listening
      ensures Valid()
      ensures HostIndex(chain) == |chain| ==> reply == None && mappings == old(mappings)
      ensures forall f <- chain :: (HostIndex(chain) == |chain| || f != chain[HostIndex(chain)]) ==>
        f.kcLang == old(f.kcLang) && f.listening == old(f.listening)
      ensures HostIndex(chain) < |chain| ==>
        var h := chain[HostIndex(chain)];
        var r := Respond(list, LangState(h.lang, old(h.kcLang), old(h.listening)), cmd);
        && LangState(h.lang, h.kcLang, h.listening) == r.0 && reply == r.1
        && mappings == if cmd.SetLang? then Loading(old(mappings), cmd.lang) else old(mappings)
    {
      var i := FindEditingHost(chain);
      if i == |chain| {
        return None;
      }
      var element := chain[i];
      var oldKCLang := element.kcLang;
      reply := None;
      match cmd
      case GetLang =>
        reply := Some(Reply(element.lang, oldKCLang));
      case SetLang(lang) =>
        LoadMapping(lang);
        element.kcLang := Some(lang);
        var icon := Find(list, element.kcLang);
        if icon.None? {
          // the icon's `mapping.icon` throws: the handler stops here
          return;
        }
        if !Truthy(oldKCLang) && Find(list, element.lang).None? {
          element.listening := true;
        }
      case RemoveLang =>
        element.kcLang := None;
        if Truthy(oldKCLang) && Find(list, element.lang).None? {
          element.listening := false;
        }
      case OtherCommand =>
    }
  }

  lemma FindAppend(list: seq<MappingInfo>, m: MappingInfo, a: Option<string>)
    ensures Listed(list + [m], a) <==> Listed(list, a) || a == Some(m.code)
  {
    assert forall x <- list + [m] :: x in list || x == m;
  }
}
