/** What typing in a field with the Russian table gives: the letters typed
    with one, two or four keys, each typed any number of times. */
module LegacyTyping {
  import opened Js
  import opened Dom
  import opened Rewriter
  import opened LegacyScript

  /** A letter typed with one key: `a` gives а. */
  predicate SingleKey(k: string) {
    |k| == 1 && OneKey(k[0]).Some?
  }

  /** A letter typed with a key that has no entry of its own, then a
      second key: `y` stays, then `a` turns `ya` into я. */
  predicate PrefixPair(k: string) {
    |k| == 2 && OneKey(k[0]).None? && TwoKeys(k[0], k[1]).Some?
  }

  /** A letter typed with a key that gives a letter, then a second key
      that turns that letter into another: `t` gives т, `s` turns `тs`
      into ц. */
  predicate SuffixPair(k: string) {
    |k| == 2 && OneKey(k[0]).Some? && TwoKeys(OneKey(k[0]).value, k[1]).Some?
  }

  /** What the third key of щ leaves in the field: `c` gives с, and a
      key with no entry of its own, such as с itself, stays as typed. */
  function Third(c: char): char {
    if OneKey(c).Some? then OneKey(c).value else c
  }

  /** щ: `s`, `h` give ш, `c` (or с) leaves с, and `h` turns `шсh` into щ. */
  predicate FourKeys(k: string) {
    && |k| == 4 && OneKey(k[0]).None? && TwoKeys(k[0], k[1]).Some?
    && ThreeKeys(TwoKeys(k[0], k[1]).value, Third(k[2]), k[3]).Some?
  }

  lemma SingleKeyAfterItself(c: char)
    requires OneKey(c).Some?
    ensures var x := OneKey(c).value; TwoKeys(x, c).None? && ThreeKeys(x, x, c).None?
  {
  }

  lemma PrefixPairAfterItself(c: char, d: char)
    requires OneKey(c).None? && TwoKeys(c, d).Some?
    ensures var x := TwoKeys(c, d).value; TwoKeys(x, c).None? && ThreeKeys(x, x, c).None? && ThreeKeys(x, c, d).None?
  {
  }

  lemma SuffixPairAfterItself(c: char, d: char)
    requires OneKey(c).Some? && TwoKeys(OneKey(c).value, d).Some?
    ensures var y := OneKey(c).value; var x := TwoKeys(y, d).value;
      TwoKeys(x, c).None? && ThreeKeys(x, x, c).None? && ThreeKeys(x, y, d).None?
  {
  }

  lemma FourKeysAfterItself(a: char, b: char, c: char, d: char)
    requires FourKeys([a, b, c, d])
    ensures var y := TwoKeys(a, b).value; var z := Third(c); var x := ThreeKeys(y, z, d).value;
      && TwoKeys(x, a).None? && ThreeKeys(x, x, a).None? && ThreeKeys(x, a, b).None?
      && ThreeKeys(x, y, c).None? && TwoKeys(y, c).None?
  {
    assert [a, b, c, d][0] == a && [a, b, c, d][1] == b && [a, b, c, d][2] == c && [a, b, c, d][3] == d;
  }

  /** The keys of a letter of one of the four kinds. */
  predicate Spells(k: string) {
    SingleKey(k) || PrefixPair(k) || SuffixPair(k) || FourKeys(k)
  }

  /** The letter the keys `k` spell. */
  function Spelled(k: string): char
    requires Spells(k)
  {
    if SingleKey(k) then OneKey(k[0]).value
    else if PrefixPair(k) then TwoKeys(k[0], k[1]).value
    else if SuffixPair(k) then TwoKeys(OneKey(k[0]).value, k[1]).value
    else ThreeKeys(TwoKeys(k[0], k[1]).value, Third(k[2]), k[3]).value
  }

  /** The number of key events typing the letter produces: 8 for one key,
      5 per key plus 3 for a prefix pair, 11 plus 2 per key plus 3 for a
      suffix pair, and 33 for щ (28 when its third key is с itself). */
  function EventCount(k: string): nat
    requires Spells(k)
  {
    if SingleKey(k) then 8
    else if PrefixPair(k) then 5 * |k| + 3
    else if SuffixPair(k) then 11 + 2 * |k| + 3
    else if OneKey(k[2]).Some? then 33
    else 28
  }

  /** `s` repeated `i` times. */
  function Times(s: string, i: nat): (r: string)
    ensures |r| == i * |s|
  {
    if i == 0 then [] else Times(s, i - 1) + s
  }

  /** The text holds only the letter `x`. */
  predicate Only(v: string, x: char) {
    forall j :: 0 <= j < |v| ==> v[j] == x
  }

  /** Typing the keys of a letter after copies of that letter adds one
      more copy, with the letter's number of events. */
  lemma LetterAfterItself(k: string, x: char, v: string)
    requires Spells(k) && x == Spelled(k) && Only(v, x)
    ensures TypedAll(v, k) == v + [x]
    ensures |TypedAllEvents(v, k)| == EventCount(k)
  {
    if SingleKey(k) {
      assert k == [k[0]];
      SingleKeyAfter(k[0], v);
    } else if PrefixPair(k) {
      assert k == [k[0], k[1]];
      PrefixPairAfter(k[0], k[1], v);
    } else if SuffixPair(k) {
      assert k == [k[0], k[1]];
      SuffixPairAfter(k[0], k[1], v);
    } else {
      assert k == [k[0], k[1], k[2], k[3]];
      FourKeysAfter(k[0], k[1], k[2], k[3], v);
    }
  }

  lemma SingleKeyAfter(c: char, v: string)
    requires SingleKey([c]) && Only(v, OneKey(c).value)
    ensures TypedAll(v, [c]) == v + [OneKey(c).value]
    ensures |TypedAllEvents(v, [c])| == 8
  {
    var x, n := OneKey(c).value, |v|;
    assert n >= 1 ==> v[n - 1] == x;
    assert n >= 2 ==> v[n - 2] == x;
    assert v[..n] == v;
    SingleKeyAfterItself(c);
    TypedAllOne(v, c);
  }

  lemma PrefixPairAfter(c: char, d: char, v: string)
    requires PrefixPair([c, d]) && Only(v, TwoKeys(c, d).value)
    ensures TypedAll(v, [c, d]) == v + [TwoKeys(c, d).value]
    ensures |TypedAllEvents(v, [c, d])| == 13
  {
    var x, n := TwoKeys(c, d).value, |v|;
    assert n >= 1 ==> v[n - 1] == x;
    assert n >= 2 ==> v[n - 2] == x;
    assert v[..n] == v;
    PrefixPairAfterItself(c, d);
    var v1 := Typed(v, c);
    assert v1 == v + [c];
    assert v1[n] == c && v1[..n] == v && |v1| == n + 1;
    assert n >= 1 ==> v1[n - 1] == x;
    assert Typed(v1, d) == v + [x];
    TypedAllTwo(v, c, d);
  }

  lemma SuffixPairAfter(c: char, d: char, v: string)
    requires SuffixPair([c, d]) && Only(v, TwoKeys(OneKey(c).value, d).value)
    ensures TypedAll(v, [c, d]) == v + [TwoKeys(OneKey(c).value, d).value]
    ensures |TypedAllEvents(v, [c, d])| == 18
  {
    var y := OneKey(c).value;
    var x, n := TwoKeys(y, d).value, |v|;
    assert n >= 1 ==> v[n - 1] == x;
    assert n >= 2 ==> v[n - 2] == x;
    assert v[..n] == v;
    SuffixPairAfterItself(c, d);
    var v1 := Typed(v, c);
    assert v1 == v + [y];
    assert v1[n] == y && v1[..n] == v && |v1| == n + 1;
    assert n >= 1 ==> v1[n - 1] == x;
    assert Typed(v1, d) == v + [x];
    TypedAllTwo(v, c, d);
  }

  lemma FourKeysAfter(a: char, b: char, c: char, d: char, v: string)
    requires FourKeys([a, b, c, d])
    requires Only(v, ThreeKeys(TwoKeys(a, b).value, Third(c), d).value)
    ensures TypedAll(v, [a, b, c, d]) == v + [ThreeKeys(TwoKeys(a, b).value, Third(c), d).value]
    ensures |TypedAllEvents(v, [a, b, c, d])| == if OneKey(c).Some? then 33 else 28
  {
    var y, z := TwoKeys(a, b).value, Third(c);
    var x, n := ThreeKeys(y, z, d).value, |v|;
    FourKeysAfterItself(a, b, c, d);
    TypedAllFour(v, a, b, c, d);
    var v1 := v + [a];
    KeyStays(v, a, x);
    var v2 := v + [y];
    PairCloses(v, a, b, x, y);
    var v3 := v + [y, z];
    LetterAfterPair(v, y, c, x, z);
    LetterCloses(v, y, z, d, x);
  }

  /** Step 1 of щ after letters `x`: the first key stays as typed. */
  lemma KeyStays(v: string, a: char, x: char)
    requires Only(v, x) && OneKey(a).None? && TwoKeys(x, a).None? && ThreeKeys(x, x, a).None?
    ensures Typed(v, a) == v + [a] && |TypedEvents(v, a)| == 3
  {
    var n := |v|;
    assert n >= 1 ==> v[n - 1] == x;
    assert n >= 2 ==> v[n - 2] == x;
  }

  /** Step 2: the second key turns the first into `y`. */
  lemma PairCloses(v: string, a: char, b: char, x: char, y: char)
    requires Only(v, x) && TwoKeys(a, b) == Some(y) && ThreeKeys(x, a, b).None?
    ensures Typed(v + [a], b) == v + [y] && |TypedEvents(v + [a], b)| == 10
  {
    var n := |v|;
    var v1 := v + [a];
    assert v1[n] == a && v1[..n] == v;
    assert n >= 1 ==> v1[n - 1] == x;
  }

  /** Step 3: the third key leaves `z`, its own letter or itself. */
  lemma LetterAfterPair(v: string, y: char, c: char, x: char, z: char)
    requires Only(v, x) && Third(c) == z && ThreeKeys(x, y, c).None? && TwoKeys(y, c).None?
    ensures Typed(v + [y], c) == v + [y, z]
    ensures |TypedEvents(v + [y], c)| == if OneKey(c).Some? then 8 else 3
  {
    var n := |v|;
    var v1 := v + [y];
    assert v1[n] == y && v1[..n + 1] == v1;
    assert n >= 1 ==> v1[n - 1] == x;
    assert v1 + [z] == v + [y, z];
  }

  /** Step 4: the fourth key turns the last two letters into `x`. */
  lemma LetterCloses(v: string, y: char, z: char, d: char, x: char)
    requires ThreeKeys(y, z, d) == Some(x)
    ensures Typed(v + [y, z], d) == v + [x] && |TypedEvents(v + [y, z], d)| == 12
  {
    var n := |v|;
    var v1 := v + [y, z];
    assert v1[n] == y && v1[n + 1] == z && v1[..n] == v;
  }

  lemma TypedAllOne(v: string, c: char)
    ensures TypedAll(v, [c]) == Typed(v, c)
    ensures TypedAllEvents(v, [c]) == TypedEvents(v, c)
  {
    assert [c][1..] == [];
    assert TypedEvents(v, c) + [] == TypedEvents(v, c);
  }

  lemma TypedAllTwo(v: string, c: char, d: char)
    ensures TypedAll(v, [c, d]) == Typed(Typed(v, c), d)
    ensures TypedAllEvents(v, [c, d]) == TypedEvents(v, c) + TypedEvents(Typed(v, c), d)
  {
    assert [c, d][1..] == [d];
    TypedAllOne(Typed(v, c), d);
  }

  lemma TypedAllFour(v: string, a: char, b: char, c: char, d: char)
    ensures var v1 := Typed(v, a); var v2 := Typed(v1, b); var v3 := Typed(v2, c);
      && TypedAll(v, [a, b, c, d]) == Typed(v3, d)
      && TypedAllEvents(v, [a, b, c, d]) == TypedEvents(v, a) + (TypedEvents(v1, b) + (TypedEvents(v2, c) + TypedEvents(v3, d)))
  {
    assert [a, b, c, d][1..] == [b, c, d] && [b, c, d][1..] == [c, d];
    TypedAllTwo(Typed(Typed(v, a), b), c, d);
  }

  /** Typing `k` after copies of `x` adds one more `x`, with `e` events. */
  ghost predicate AddsOne(k: string, x: char, e: nat) {
    forall v :: Only(v, x) ==> TypedAll(v, k) == v + [x] && |TypedAllEvents(v, k)| == e
  }

  lemma LetterAddsOne(k: string)
    requires Spells(k)
    ensures AddsOne(k, Spelled(k), EventCount(k))
  {
    forall v | Only(v, Spelled(k))
      ensures TypedAll(v, k) == v + [Spelled(k)] && |TypedAllEvents(v, k)| == EventCount(k)
    {
      LetterAfterItself(k, Spelled(k), v);
    }
  }

  /** Typing the keys of a letter `i` times gives the letter `i` times,
      with the letter's number of events each time. */
  lemma RepeatedLetter(k: string, i: nat)
    requires Spells(k)
    ensures TypedAll([], Times(k, i)) == Times([Spelled(k)], i)
    ensures |TypedAllEvents([], Times(k, i))| == i * EventCount(k)
  {
    LetterAddsOne(k);
    Repeated(k, Spelled(k), EventCount(k), i);
  }

  lemma {:induction false} Repeated(k: string, x: char, e: nat, i: nat)
    requires AddsOne(k, x, e)
    ensures TypedAll([], Times(k, i)) == Times([x], i)
    ensures |TypedAllEvents([], Times(k, i))| == i * e
  {
    if i > 0 {
      var v := Times([x], i - 1);
      OnlyTimes(x, i - 1);
      assert TypedAll(v, k) == v + [x] && |TypedAllEvents(v, k)| == e;
      Repeated(k, x, e, i - 1);
      TypedAllAppend([], Times(k, i - 1), k);
      assert (i - 1) * e + e == i * e;
    }
  }

  /** Typing the keys of a letter `i` times into an empty field leaves
      the letter `i` times, the caret after it, and the letter's number of
      events each time. */
  lemma TypedInField(k: string, x: char, i: nat)
    requires Gives(k, x)
    ensures var g := TypeKeys(Blank(), Times(k, i));
      g.value == Times([x], i) && g.caret == i && |g.events| == i * EventCount(k)
  {
    TypeKeysAtEnd(Blank(), Times(k, i));
    RepeatedLetter(k, i);
  }

  /** A one-key letter typed four times into an empty field: 8 events each. */
  lemma SingleKeyFourTimes()
    ensures var g := TypeKeys(Blank(), Times("a", 4)); g.value == "аааа" && |g.events| == 4 * 8
  {
    TypedInField("a", 'а', 4);
    TimesFour('а');
  }

  /** A prefix pair typed four times: 5 events per key plus 3, each time. */
  lemma PrefixPairFourTimes()
    ensures var g := TypeKeys(Blank(), Times("ya", 4)); g.value == "яяяя" && |g.events| == 4 * (5 * 2 + 3)
  {
    TypedInField("ya", 'я', 4);
    TimesFour('я');
  }

  /** A suffix pair typed four times: 11, plus 2 events per key, plus 3. */
  lemma SuffixPairFourTimes()
    ensures var g := TypeKeys(Blank(), Times("ts", 4)); g.value == "цццц" && |g.events| == 4 * (11 + 2 * 2 + 3)
  {
    TypedInField("ts", 'ц', 4);
    TimesFour('ц');
  }

  /** Щ typed four times with Latin keys: 33 events each time. */
  lemma ShchaFourTimes()
    ensures var g := TypeKeys(Blank(), Times("SHCH", 4)); g.value == "ЩЩЩЩ" && |g.events| == 4 * 33
  {
    ShchaSpelled();
    TypedInField("SHCH", 'Щ', 4);
    TimesFour('Щ');
  }

  /** `SHCH` spells Щ, and its third key gives a letter of its own. */
  lemma ShchaSpelled()
    ensures Gives("SHCH", 'Щ') && EventCount("SHCH") == 33
  {
    var k := "SHCH";
    assert k[0] == 'S' && k[1] == 'H' && k[2] == 'C' && k[3] == 'H';
    assert !SingleKey(k) && !PrefixPair(k) && !SuffixPair(k);
    assert OneKey('C') == Some('С') && Third('C') == 'С';
    assert TwoKeys('S', 'H') == Some('Ш');
    assert ThreeKeys('Ш', 'С', 'H') == Some('Щ');
    assert FourKeys(k);
  }

  lemma TimesFour(x: char)
    ensures Times([x], 4) == [x, x, x, x]
  {
    assert Times([x], 2) == [x, x];
    assert Times([x], 3) == [x, x, x];
  }

  lemma {:induction false} OnlyTimes(x: char, i: nat)
    ensures Only(Times([x], i), x)
  {
    if i > 0 {
      OnlyTimes(x, i - 1);
    }
  }


  /** The keys `k` type the letter `x`. */
  predicate Gives(k: string, x: char) {
    Spells(k) && Spelled(k) == x
  }

  /** The lower-case letters typed with one key, a to f. */
  lemma LowerSingleAF()
    ensures Gives("a", 'а') && Gives("b", 'б')
    ensures Gives("c", 'с') && Gives("d", 'д')
    ensures Gives("e", 'е') && Gives("f", 'ф')
  {
  }

  /** The lower-case letters typed with one key, g to m. */
  lemma LowerSingleGM()
    ensures Gives("g", 'г') && Gives("i", 'и')
    ensures Gives("j", 'ж') && Gives("k", 'к')
    ensures Gives("l", 'л') && Gives("m", 'м')
  {
  }

  /** The lower-case letters typed with one key, n to u. */
  lemma LowerSingleNU()
    ensures Gives("n", 'н') && Gives("o", 'о')
    ensures Gives("p", 'п') && Gives("r", 'р')
    ensures Gives("t", 'т') && Gives("u", 'у')
  {
  }

  /** The lower-case letters typed with one key, v to è. */
  lemma LowerSingleVE()
    ensures Gives("v", 'в') && Gives("x", 'х')
    ensures Gives("z", 'з') && Gives("è", 'э')
  {
  }

  /** The upper-case letters typed with one key, A to F. */
  lemma UpperSingleAF()
    ensures Gives("A", 'А') && Gives("B", 'Б')
    ensures Gives("C", 'С') && Gives("D", 'Д')
    ensures Gives("E", 'Е') && Gives("F", 'Ф')
  {
  }

  /** The upper-case letters typed with one key, G to M. */
  lemma UpperSingleGM()
    ensures Gives("G", 'Г') && Gives("I", 'И')
    ensures Gives("J", 'Ж') && Gives("K", 'К')
    ensures Gives("L", 'Л') && Gives("M", 'М')
  {
  }

  /** The upper-case letters typed with one key, N to U. */
  lemma UpperSingleNU()
    ensures Gives("N", 'Н') && Gives("O", 'О')
    ensures Gives("P", 'П') && Gives("R", 'Р')
    ensures Gives("T", 'Т') && Gives("U", 'У')
  {
  }

  /** The upper-case letters typed with one key, V to È. */
  lemma UpperSingleVE()
    ensures Gives("V", 'В') && Gives("X", 'Х')
    ensures Gives("Z", 'З') && Gives("È", 'Э')
  {
  }

  /** The upper-case soft vowels typed with several keys. */
  lemma UpperSoftVowelsA()
    ensures Gives("YA", 'Я') && Gives("Ya", 'Я')
    ensures Gives("YI", 'Й') && Gives("Yi", 'Й')
  {
  }

  /** The upper-case soft vowels typed with several keys. */
  lemma UpperSoftVowelsB()
    ensures Gives("YO", 'Ё') && Gives("Yo", 'Ё')
    ensures Gives("YU", 'Ю') && Gives("Yu", 'Ю')
  {
  }

  /** The upper-case soft vowels typed with several keys. */
  lemma UpperSoftVowelsC()
    ensures Gives("YY", 'Ы') && Gives("Yy", 'Ы')
  {
  }

  /** The upper-case compound letters typed with several keys. */
  lemma UpperCompoundA()
    ensures Gives("TS", 'Ц') && Gives("Ts", 'Ц')
    ensures Gives("SH", 'Ш') && Gives("Sh", 'Ш')
  {
  }

  /** The upper-case compound letters typed with several keys. */
  lemma UpperCompoundB()
    ensures Gives("CH", 'Ч') && Gives("Ch", 'Ч')
  {
  }

  /** The upper-case щ typed with several keys. */
  lemma UpperShchaA()
    ensures Gives("SHСH", 'Щ') && Gives("SHСh", 'Щ')
    ensures Gives("SHсH", 'Щ') && Gives("SHсh", 'Щ')
  {
  }

  /** The upper-case щ typed with several keys. */
  lemma UpperShchaB()
    ensures Gives("ShСH", 'Щ') && Gives("ShСh", 'Щ')
    ensures Gives("ShсH", 'Щ') && Gives("Shсh", 'Щ')
  {
  }

  /** The upper-case signs typed with several keys. */
  lemma UpperSigns()
    ensures Gives("QD", 'Ъ') && Gives("Qd", 'Ъ')
    ensures Gives("QS", 'Ь') && Gives("Qs", 'Ь')
  {
  }

  /** The lower-case soft vowels typed with several keys. */
  lemma LowerSoftVowelsA()
    ensures Gives("ya", 'я') && Gives("yA", 'я')
    ensures Gives("yi", 'й') && Gives("yI", 'й')
  {
  }

  /** The lower-case soft vowels typed with several keys. */
  lemma LowerSoftVowelsB()
    ensures Gives("yo", 'ё') && Gives("yO", 'ё')
    ensures Gives("yu", 'ю') && Gives("yU", 'ю')
  {
  }

  /** The lower-case soft vowels typed with several keys. */
  lemma LowerSoftVowelsC()
    ensures Gives("yy", 'ы') && Gives("yY", 'ы')
  {
  }

  /** The lower-case compound letters typed with several keys. */
  lemma LowerCompoundA()
    ensures Gives("ts", 'ц') && Gives("tS", 'ц')
    ensures Gives("sh", 'ш') && Gives("sH", 'ш')
  {
  }

  /** The lower-case compound letters typed with several keys. */
  lemma LowerCompoundB()
    ensures Gives("ch", 'ч') && Gives("cH", 'ч')
  {
  }

  /** The lower-case щ typed with several keys. */
  lemma LowerShchaA()
    ensures Gives("shсh", 'щ') && Gives("shсH", 'щ')
    ensures Gives("shСh", 'щ') && Gives("shСH", 'щ')
  {
  }

  /** The lower-case щ typed with several keys. */
  lemma LowerShchaB()
    ensures Gives("sHсh", 'щ') && Gives("sHсH", 'щ')
    ensures Gives("sHСh", 'щ') && Gives("sHСH", 'щ')
  {
  }

  /** The lower-case signs typed with several keys. */
  lemma LowerSigns()
    ensures Gives("qd", 'ъ') && Gives("qD", 'ъ')
    ensures Gives("qs", 'ь') && Gives("qS", 'ь')
  {
  }

  /** The longest window wins: after ш and с, typing h completes щ, although
      с and h alone are the entry of ч. */
  lemma LongestWindowWins(p: string)
    ensures TwoKeys('с', 'h') == Some('ч')
    ensures Typed(p + "шс", 'h') == p + "щ"
  {
    var v := p + "шс";
    assert v[|v| - 2] == 'ш' && v[|v| - 1] == 'с';
    assert v[..|v| - 2] == p;
  }

  /** h, q, s, w and y have no entry of their own, so each stays as typed
      (see `LoneKey`). */
  lemma NoSingleKeyLower()
    ensures OneKey('h').None? && OneKey('q').None? && OneKey('s').None? && OneKey('w').None? && OneKey('y').None?
  {
  }

  /** Nor have their capitals. */
  lemma NoSingleKeyUpper()
    ensures OneKey('H').None? && OneKey('Q').None? && OneKey('S').None? && OneKey('W').None? && OneKey('Y').None?
  {
  }

  /** A key without an entry of its own, typed into an empty field: the key
      stays as it is and only its own three events are observed. */
  lemma LoneKey(c: char)
    requires OneKey(c).None?
    ensures var g := TypeKeys(Blank(), [c]);
      g.value == [c] && g.caret == 1 && |g.events| == 3
  {
    TypeKeysAtEnd(Blank(), [c]);
    TypedAllOne([], c);
  }
}
