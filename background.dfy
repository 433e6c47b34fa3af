/** The background script: the context menu of editable fields, with one
    radio item per available mapping, the message a click sends to the
    content script, and the checks and titles the menu shows. */
module Background {
  import opened Js
  import opened Protocol
  import ContentScript

  /** A radio item of the menu: the mapping code it selects (`null` for the
      "None" item), its title and whether it is checked. */
  datatype MenuItem = MenuItem(mapping: Option<string>, title: string, checked: bool)

  /** The menu built for the mapping list: "None" first and checked, then
      one unchecked item per entry, in list order, titled with its name. */
  method InstallMappings(list: seq<MappingInfo>) returns (items: seq<MenuItem>)
    ensures |items| == |list| + 1
    ensures items[0] == MenuItem(None, "None", true)
    ensures forall i :: 0 <= i < |list| ==> items[i + 1] == MenuItem(Some(list[i].code), list[i].name, false)
  {
    items := [MenuItem(None, "None", true)];
    for k := 0 to |list|
      invariant |items| == k + 1
      invariant items[0] == MenuItem(None, "None", true)
      invariant forall i :: 0 <= i < k ==> items[i + 1] == MenuItem(Some(list[i].code), list[i].name, false)
    {
      items := items + [MenuItem(Some(list[k].code), list[k].name, false)];
    }
  }

  /** The items select "None" and then the list's codes, in order: what the
      menu holds from its creation on, whatever it shows. */
  predicate Selects(list: seq<MappingInfo>, items: seq<MenuItem>) {
    && |items| == |list| + 1
    && items[0].mapping == None
    && forall i :: 0 <= i < |list| ==> items[i + 1].mapping == Some(list[i].code)
  }

  /** The list's codes are pairwise distinct. */
  predicate DistinctCodes(list: seq<MappingInfo>) {
    forall i, j :: 0 <= i < |list| && 0 <= j < |list| && i != j ==> list[i].code != list[j].code
  }

  /** A click on an item: nothing when the menu was not opened on an
      editable element; otherwise `SET_LANG` with the item's code when that
      code is truthy, and `REMOVE_LANG` when it is not, both about the
      element the menu was opened on. */
  function OnClick(mapping: Option<string>, editable: bool, elementId: int): (m: Option<Message>)
    ensures m.Some? <==> editable
    ensures m.Some? ==> m.value.elementId == elementId
    ensures m.Some? ==> (m.value.command.SetLang? <==> Truthy(mapping))
    ensures m.Some? && m.value.command.SetLang? ==> mapping == Some(m.value.command.lang) && m.value.command.lang != ""
    ensures m.Some? && !m.value.command.SetLang? ==> m.value.command.RemoveLang?
  {
    if !editable then None
    else if Truthy(mapping) then Some(Message(SetLang(mapping.value), elementId))
    else Some(Message(RemoveLang, elementId))
  }

  /** The title the falsy items show for a field whose own language is
      `lang`: the name of the mapping that serves it, or "None". */
  function DefaultTitle(list: seq<MappingInfo>, lang: Option<string>): (t: string)
    ensures Listed(list, lang) ==> t == "Default (" + Find(list, lang).value.name + ")"
    ensures !Listed(list, lang) ==> t == "None"
  {
    match Find(list, lang)
    case Some(m) => "Default (" + m.name + ")"
    case None => "None"
  }

  /** What an item shows once the content script has answered `GET_LANG`
      with `reply`: checked when its code equals the override (`==` in
      JavaScript: two `null`s are equal, a string never equals `null`); a
      falsy item is retitled after the field's own language. */
  function ShownItem(list: seq<MappingInfo>, item: MenuItem, reply: Reply): MenuItem {
    MenuItem(item.mapping,
      if Truthy(item.mapping) then item.title else DefaultTitle(list, reply.lang),
      item.mapping == reply.kcLang)
  }

  /** The whole menu as shown for `reply`. */
  function Shown(list: seq<MappingInfo>, items: seq<MenuItem>, reply: Reply): (r: seq<MenuItem>)
    ensures |r| == |items|
    ensures forall i :: 0 <= i < |items| ==> r[i] == ShownItem(list, items[i], reply)
  {
    seq(|items|, i requires 0 <= i < |items| => ShownItem(list, items[i], reply))
  }

  /** Showing the menu changes no item's mapping, so the menu keeps
      selecting the same codes. */
  lemma ShownSelects(list: seq<MappingInfo>, items: seq<MenuItem>, reply: Reply)
    requires Selects(list, items)
    ensures Selects(list, Shown(list, items, reply))
  {
  }

  /** An item of the menu is checked exactly when it selects the override:
      "None" when there is none, the item of its code otherwise. */
  lemma CheckedIsOverride(list: seq<MappingInfo>, items: seq<MenuItem>, reply: Reply, i: nat)
    requires Selects(list, items) && i < |items|
    ensures Shown(list, items, reply)[i].checked <==> reply.kcLang == (if i == 0 then None else Some(list[i - 1].code))
  {
  }

  /** With distinct codes at most one item is checked, and one is checked
      exactly when the field has no override or an override the list
      serves. */
  lemma OneChecked(list: seq<MappingInfo>, items: seq<MenuItem>, reply: Reply)
    requires Selects(list, items) && DistinctCodes(list)
    ensures var r := Shown(list, items, reply);
      forall i, j :: 0 <= i < |r| && 0 <= j < |r| && r[i].checked && r[j].checked ==> i == j
    ensures var r := Shown(list, items, reply);
      (exists i :: 0 <= i < |r| && r[i].checked) <==> reply.kcLang.None? || Listed(list, reply.kcLang)
  {
    var r := Shown(list, items, reply);
    forall i, j | 0 <= i < |r| && 0 <= j < |r| && r[i].checked && r[j].checked
      ensures i == j
    {
      CheckedIsOverride(list, items, reply, i);
      CheckedIsOverride(list, items, reply, j);
    }
    if reply.kcLang.None? {
      assert r[0].checked;
    } else if Listed(list, reply.kcLang) {
      var k :| 0 <= k < |list| && list[k] == Find(list, reply.kcLang).value && FirstCodeAt(list, reply.kcLang, k);
      assert r[k + 1].checked;
    } else {
      forall i | 0 <= i < |r|
        ensures !r[i].checked
      {
        CheckedIsOverride(list, items, reply, i);
        if i > 0 {
          assert list[i - 1] in list;
        }
      }
    }
  }

  /** A click on an item, the content script's handling of the message, and
      the menu shown next time: the clicked item is the one checked, and the
      falsy items are titled after the field's own language, whatever the
      override was. */
  lemma ClickThenShow(list: seq<MappingInfo>, items: seq<MenuItem>, j: nat, s: ContentScript.LangState, elementId: int)
    requires Selects(list, items) && DistinctCodes(list) && j < |items|
    requires forall i :: 0 <= i < |list| ==> list[i].code != ""
    ensures var m := OnClick(items[j].mapping, true, elementId).value;
      var s' := ContentScript.Respond(list, s, m.command).0;
      var reply := ContentScript.Respond(list, s', GetLang).1.value;
      var r := Shown(list, items, reply);
      && (forall i :: 0 <= i < |r| ==> (r[i].checked <==> i == j))
      && r[0].title == DefaultTitle(list, s.lang)
  {
    var m := OnClick(items[j].mapping, true, elementId).value;
    var s' := ContentScript.Respond(list, s, m.command).0;
    var reply := ContentScript.Respond(list, s', GetLang).1.value;
    if j > 0 {
      assert items[j].mapping == Some(list[j - 1].code);
    }
    assert reply.kcLang == items[j].mapping;
    OneChecked(list, items, reply);
    CheckedIsOverride(list, items, reply, j);
  }
}
