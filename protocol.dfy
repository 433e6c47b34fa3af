/** What the background script and the content script share: the list of
    available mappings and the messages the context menu sends. */
module Protocol {
  import opened Js

  /** An entry of the mapping list: the language code (the `lang` value it
      serves and the name of its table), its display name and its flag. */
  datatype MappingInfo = MappingInfo(code: string, name: string, icon: string)

  /** `list.find((e) => (e.code == a))`: the first entry whose code equals the
      attribute value `a`; a missing attribute (`null`) equals no code. */
  function Find(list: seq<MappingInfo>, a: Option<string>): (r: Option<MappingInfo>)
    ensures r.None? <==> forall m <- list :: a != Some(m.code)
    ensures r.Some? ==> r.value in list && a == Some(r.value.code)
    ensures r.Some? ==> exists i :: 0 <= i < |list| && list[i] == r.value && FirstCodeAt(list, a, i)
  {
    if list == [] then None
    else if a == Some(list[0].code) then Some(list[0])
    else
      var r := Find(list[1..], a);
      assert r.Some? ==> exists i :: 1 <= i < |list| && list[i] == r.value && FirstCodeAt(list, a, i) by {
        if r.Some? {
          var i :| 0 <= i < |list[1..]| && list[1..][i] == r.value && FirstCodeAt(list[1..], a, i);
          assert FirstCodeAt(list, a, i + 1);
        }
      }
      r
  }

  /** The entry at `i` is the first whose code equals `a`. */
  predicate FirstCodeAt(list: seq<MappingInfo>, a: Option<string>, i: nat)
    requires i < |list|
  {
    a == Some(list[i].code) && forall j :: 0 <= j < i ==> a != Some(list[j].code)
  }

  /** A language is listed when some entry of the list serves it. */
  predicate Listed(list: seq<MappingInfo>, a: Option<string>) {
    Find(list, a).Some?
  }

  /** The commands a message can carry; any other command is ignored. */
  datatype Command = GetLang | SetLang(lang: string) | RemoveLang | OtherCommand

  /** A message to the content script, about the element the context menu
      was opened on. */
  datatype Message = Message(command: Command, elementId: int)

  /** The answer to `GET_LANG`: the `lang` and `kc-lang` attributes. */
  datatype Reply = Reply(lang: Option<string>, kcLang: Option<string>)
}
