/** The alphabet typed letter after letter: each letter's keys are typed
    right after the letters before them, and only the last two letters of
    the text can take part in a rewrite. */
module LegacyAlphabet {
  import opened Js
  import opened Dom
  import opened Rewriter
  import opened LegacyScript

  /** Typing at the end of `p + w` leaves `p` alone when `w` holds the two
      characters a rewrite can reach back to. */
  lemma TypedLocal(p: string, w: string, c: char)
    requires |w| >= 2
    ensures Typed(p + w, c) == p + Typed(w, c)
  {
    var v := p + w;
    var n, m := |v|, |w|;
    assert v[n - 2] == w[m - 2] && v[n - 1] == w[m - 1];
    assert EndRewrite(v, c) == EndRewrite(w, c);
    match EndRewrite(w, c)
    case None =>
      assert v + [c] == p + (w + [c]);
    case Some(r) =>
      assert v[..n + 1 - r.width] == p + w[..m + 1 - r.width];
      assert v[..n + 1 - r.width] + r.keys == p + (w[..m + 1 - r.width] + r.keys);
  }

  /** Typing `keys` after `w` never brings the text below two characters
      before a key is typed. */
  predicate Local(w: string, keys: string)
    decreases |keys|
  {
    keys == [] || (|w| >= 2 && Local(Typed(w, keys[0]), keys[1..]))
  }

  /** Typing `keys` at the end of `p + w` only changes what follows `p`
      when `w` stays long enough. */
  lemma {:induction false} TypedAllLocal(p: string, w: string, keys: string)
    requires Local(w, keys)
    ensures TypedAll(p + w, keys) == p + TypedAll(w, keys)
    decreases |keys|
  {
    if keys != [] {
      TypedLocal(p, w, keys[0]);
      TypedAllLocal(p, Typed(w, keys[0]), keys[1..]);
    }
  }

  /** The groups of keys, one after the other. */
  function Flatten(groups: seq<string>): (r: string)
  {
    if groups == [] then [] else Flatten(groups[..|groups| - 1]) + groups[|groups| - 1]
  }

  /** Typing `g` after the letters `a`, `b` adds the letter `x`, and the
      rewrites stay within `a`, `b` and what follows. */
  predicate AddsLetter(a: char, b: char, g: string, x: char) {
    Local([a, b], g) && TypedAll([a, b], g) == [a, b, x]
  }

  /** No entry ends with `c` after `a`, `b`. */
  predicate NoEntry(a: char, b: char, c: char) {
    ThreeKeys(a, b, c).None? && TwoKeys(b, c).None? && OneKey(c).None?
  }

  /** Only the entry of `c` alone matches after `a`, `b`, and gives `x`. */
  predicate OwnEntry(a: char, b: char, c: char, x: char) {
    ThreeKeys(a, b, c).None? && TwoKeys(b, c).None? && OneKey(c) == Some(x)
  }

  /** The entries typing `g` after the letters `a`, `b` meets, in one of the
      four ways a letter is typed: one key with an entry of its own; a key
      that stays and a key that closes the pair; a key that gives a letter
      and a key that turns it into another; or щ, a pair that gives ш, a key
      that gives с, and a key that turns шс into щ. */
  predicate WindowStep(a: char, b: char, g: string, x: char) {
    || (|g| == 1 && OwnEntry(a, b, g[0], x))
    || (&& |g| == 2 && NoEntry(a, b, g[0])
        && ThreeKeys(b, g[0], g[1]).None? && TwoKeys(g[0], g[1]) == Some(x))
    || (&& |g| == 2 && OneKey(g[0]).Some? && OwnEntry(a, b, g[0], OneKey(g[0]).value)
        && ThreeKeys(b, OneKey(g[0]).value, g[1]).None? && TwoKeys(OneKey(g[0]).value, g[1]) == Some(x))
    || (&& |g| == 4 && NoEntry(a, b, g[0])
        && ThreeKeys(b, g[0], g[1]).None? && TwoKeys(g[0], g[1]).Some?
        && OneKey(g[2]).Some? && OwnEntry(b, TwoKeys(g[0], g[1]).value, g[2], OneKey(g[2]).value)
        && ThreeKeys(TwoKeys(g[0], g[1]).value, OneKey(g[2]).value, g[3]) == Some(x))
  }

  /** Each of the four ways adds its letter. */
  lemma WindowStepAdds(a: char, b: char, g: string, x: char)
    requires WindowStep(a, b, g, x)
    ensures AddsLetter(a, b, g, x)
  {
    if |g| == 1 {
      assert g == [g[0]];
      SingleWindow(a, b, g[0], x);
    } else if |g| == 2 && NoEntry(a, b, g[0]) {
      assert g == [g[0], g[1]];
      PrefixWindow(a, b, g[0], g[1], x);
    } else if |g| == 2 {
      assert g == [g[0], g[1]];
      SuffixWindow(a, b, g[0], g[1], OneKey(g[0]).value, x);
    } else {
      assert g == [g[0], g[1], g[2], g[3]];
      FourWindow(a, b, g[0], g[1], g[2], g[3], TwoKeys(g[0], g[1]).value, OneKey(g[2]).value, x);
    }
  }

  /** Each group of `groups` adds the letter of `letters` at its place:
      the first two from the empty text, the others after the two letters
      before them. */
  predicate Steps(groups: seq<string>, letters: string) {
    && |groups| == |letters| >= 2
    && TypedAll([], groups[0]) == [letters[0]]
    && TypedAll([letters[0]], groups[1]) == [letters[0], letters[1]]
    && forall l :: 2 <= l < |groups| ==> WindowStep(letters[l - 2], letters[l - 1], groups[l], letters[l])
  }

  /** Typing the groups one after the other gives, after each group, the
      letters so far. */
  lemma {:induction false} TypedGroups(groups: seq<string>, letters: string, l: nat)
    requires Steps(groups, letters) && l <= |groups|
    ensures TypedAll([], Flatten(groups[..l])) == letters[..l]
  {
    if l == 0 {
      assert groups[..0] == [];
    } else {
      var keys := Flatten(groups[..l - 1]);
      assert groups[..l][..l - 1] == groups[..l - 1];
      assert Flatten(groups[..l]) == keys + groups[l - 1];
      TypedGroups(groups, letters, l - 1);
      TypedAllAppend([], keys, groups[l - 1]);
      GroupStep(groups, letters, l);
    }
  }

  /** The group at `l - 1` adds its letter after the letters before it. */
  lemma GroupStep(groups: seq<string>, letters: string, l: nat)
    requires Steps(groups, letters) && 1 <= l <= |groups|
    ensures TypedAll(letters[..l - 1], groups[l - 1]) == letters[..l]
  {
    if l == 1 {
      assert letters[..0] == [] && letters[..1] == [letters[0]];
      return;
    } else if l == 2 {
      assert letters[..1] == [letters[0]] && letters[..2] == [letters[0], letters[1]];
      return;
    }
    var p, a, b, x := letters[..l - 3], letters[l - 3], letters[l - 2], letters[l - 1];
    assert letters[..l - 1] == p + [a, b];
    assert letters[..l] == p + [a, b, x];
    assert WindowStep(a, b, groups[l - 1], x);
    WindowStepAdds(a, b, groups[l - 1], x);
    Extend(p, a, b, groups[l - 1], x);
  }

  /** A letter added after `a`, `b` is added whatever comes before them. */
  lemma Extend(p: string, a: char, b: char, g: string, x: char)
    requires AddsLetter(a, b, g, x)
    ensures TypedAll(p + [a, b], g) == p + [a, b, x]
  {
    TypedAllLocal(p, [a, b], g);
    assert p + [a, b] + [x] == p + [a, b, x];
  }

  /** A key no window matches stays as typed. */
  lemma TypedKeeps(v: string, c: char)
    requires |v| >= 2 && ThreeKeys(v[|v| - 2], v[|v| - 1], c).None? && TwoKeys(v[|v| - 1], c).None? && OneKey(c).None?
    ensures Typed(v, c) == v + [c]
  {
  }

  /** A key that only has an entry of its own gives its letter. */
  lemma TypedOne(v: string, c: char, x: char)
    requires |v| >= 2 && ThreeKeys(v[|v| - 2], v[|v| - 1], c).None? && TwoKeys(v[|v| - 1], c).None? && OneKey(c) == Some(x)
    ensures Typed(v, c) == v + [x]
  {
    assert v[..|v|] == v;
  }

  /** A key that closes a two-character entry replaces the last character. */
  lemma TypedTwo(v: string, c: char, x: char)
    requires |v| >= 2 && ThreeKeys(v[|v| - 2], v[|v| - 1], c).None? && TwoKeys(v[|v| - 1], c) == Some(x)
    ensures Typed(v, c) == v[..|v| - 1] + [x]
  {
  }

  /** A key that closes a three-character entry replaces the last two. */
  lemma TypedThree(v: string, c: char, x: char)
    requires |v| >= 2 && ThreeKeys(v[|v| - 2], v[|v| - 1], c) == Some(x)
    ensures Typed(v, c) == v[..|v| - 2] + [x]
  {
  }

  /** Typing the first key, then the rest. */
  lemma TypedCons(w: string, c: char, r: string)
    ensures TypedAll(w, [c] + r) == TypedAll(Typed(w, c), r)
    ensures Local(w, [c] + r) <==> |w| >= 2 && Local(Typed(w, c), r)
  {
    assert ([c] + r)[0] == c && ([c] + r)[1..] == r;
  }

  /** A letter typed with one key after `a`, `b`. */
  lemma SingleWindow(a: char, b: char, c: char, x: char)
    requires ThreeKeys(a, b, c).None? && TwoKeys(b, c).None? && OneKey(c) == Some(x)
    ensures AddsLetter(a, b, [c], x)
  {
    TypedOne([a, b], c, x);
    TypedCons([a, b], c, []);
    assert [c] + [] == [c];
  }

  /** A letter typed with a key that stays and a key that closes the pair. */
  lemma PrefixWindow(a: char, b: char, c: char, d: char, x: char)
    requires ThreeKeys(a, b, c).None? && TwoKeys(b, c).None? && OneKey(c).None?
    requires ThreeKeys(b, c, d).None? && TwoKeys(c, d) == Some(x)
    ensures AddsLetter(a, b, [c, d], x)
  {
    TypedKeeps([a, b], c);
    TypedTwo([a, b, c], d, x);
    assert [a, b, c][..2] + [x] == [a, b, x];
    TypedCons([a, b, c], d, []);
    TypedCons([a, b], c, [d]);
    assert [d] + [] == [d] && [c] + [d] == [c, d];
  }

  /** A letter typed with a key that gives a letter `y` and a key that turns
      `y` into the letter. */
  lemma SuffixWindow(a: char, b: char, c: char, d: char, y: char, x: char)
    requires ThreeKeys(a, b, c).None? && TwoKeys(b, c).None? && OneKey(c) == Some(y)
    requires ThreeKeys(b, y, d).None? && TwoKeys(y, d) == Some(x)
    ensures AddsLetter(a, b, [c, d], x)
  {
    TypedOne([a, b], c, y);
    TypedTwo([a, b, y], d, x);
    assert [a, b, y][..2] + [x] == [a, b, x];
    TypedCons([a, b, y], d, []);
    TypedCons([a, b], c, [d]);
    assert [d] + [] == [d] && [c] + [d] == [c, d];
  }

  /** щ after `a`, `b`: the keys `c`, `d` give `y`, the key `e` gives `z`,
      and `f` turns `y`, `z` into the letter. */
  lemma FourWindow(a: char, b: char, c: char, d: char, e: char, f: char, y: char, z: char, x: char)
    requires ThreeKeys(a, b, c).None? && TwoKeys(b, c).None? && OneKey(c).None?
    requires ThreeKeys(b, c, d).None? && TwoKeys(c, d) == Some(y)
    requires ThreeKeys(b, y, e).None? && TwoKeys(y, e).None? && OneKey(e) == Some(z)
    requires ThreeKeys(y, z, f) == Some(x)
    ensures AddsLetter(a, b, [c, d, e, f], x)
  {
    TypedKeeps([a, b], c);
    assert [a, b] + [c] == [a, b, c];
    TypedTwo([a, b, c], d, y);
    assert [a, b, c][..2] + [y] == [a, b, y];
    TypedOne([a, b, y], e, z);
    assert [a, b, y] + [z] == [a, b, y, z];
    TypedThree([a, b, y, z], f, x);
    assert [a, b, y, z][..2] + [x] == [a, b, x];
    TypedCons([a, b, y, z], f, []);
    assert [f] + [] == [f];
    assert Local([a, b, y, z], [f]) && TypedAll([a, b, y, z], [f]) == [a, b, x];
    TypedCons([a, b, y], e, [f]);
    assert [e] + [f] == [e, f];
    assert Local([a, b, y], [e, f]) && TypedAll([a, b, y], [e, f]) == [a, b, x];
    TypedCons([a, b, c], d, [e, f]);
    assert [d] + [e, f] == [d, e, f];
    assert Local([a, b, c], [d, e, f]) && TypedAll([a, b, c], [d, e, f]) == [a, b, x];
    TypedCons([a, b], c, [d, e, f]);
    assert [c] + [d, e, f] == [c, d, e, f];
  }

  /** The first two letters, typed with one key each into the empty text. */
  lemma Start(c: char, x: char, d: char, y: char)
    requires OneKey(c) == Some(x) && TwoKeys(x, d).None? && OneKey(d) == Some(y)
    ensures TypedAll([], [c]) == [x] && TypedAll([x], [d]) == [x, y]
  {
    assert [c][1..] == [] && [d][1..] == [];
  }

  /** The keys of the Russian alphabet, lower case, a group per letter. */
  const LowerGroups: seq<string> := ["a", "b", "v", "g", "d", "e", "yo", "j", "z", "i", "yi", "k", "l", "m", "n", "o", "p", "r", "c", "t", "u", "f", "x", "ch", "sh", "shch", "ts", "qd", "yy", "qs", "è", "yu", "ya"]

  /** The Russian alphabet, lower case. */
  const LowerLetters: string := "абвгдеёжзийклмнопрстуфхчшщцъыьэюя"

  /** The first two groups give the first two letters, and every later
      group adds its letter after the two before it. */
  lemma LowerSteps()
    ensures Steps(LowerGroups, LowerLetters)
  {
    assert LowerGroups[0] == "a" && LowerGroups[1] == "b" && LowerLetters[0] == 'а' && LowerLetters[1] == 'б';
    Start('a', 'а', 'b', 'б');
    forall l | 2 <= l < |LowerGroups|
      ensures WindowStep(LowerLetters[l - 2], LowerLetters[l - 1], LowerGroups[l], LowerLetters[l])
    {
      if l < 6 {
        LowerWindows2(l);
      } else if l < 10 {
        LowerWindows6(l);
      } else if l < 14 {
        LowerWindows10(l);
      } else if l < 18 {
        LowerWindows14(l);
      } else if l < 22 {
        LowerWindows18(l);
      } else if l < 26 {
        LowerWindows22(l);
      } else if l < 30 {
        LowerWindows26(l);
      } else {
        LowerWindows30(l);
      }
    }
  }

  /** The keys of в at 2 are one of the four ways to type it. */
  lemma LowerLetter2()
    ensures WindowStep('а', 'б', "v", 'в')
  {
  }

  /** The keys of г at 3 are one of the four ways to type it. */
  lemma LowerLetter3()
    ensures WindowStep('б', 'в', "g", 'г')
  {
  }

  /** The keys of д at 4 are one of the four ways to type it. */
  lemma LowerLetter4()
    ensures WindowStep('в', 'г', "d", 'д')
  {
  }

  /** The keys of е at 5 are one of the four ways to type it. */
  lemma LowerLetter5()
    ensures WindowStep('г', 'д', "e", 'е')
  {
  }

  /** The steps from 2 up to 6. */
  lemma LowerWindows2(l: nat)
    requires 2 <= l < 6
    ensures WindowStep(LowerLetters[l - 2], LowerLetters[l - 1], LowerGroups[l], LowerLetters[l])
  {
    if l == 2 {
      assert LowerLetters[0] == 'а' && LowerLetters[1] == 'б' && LowerLetters[2] == 'в';
      assert LowerGroups[2] == "v";
      LowerLetter2();
    } else if l == 3 {
      assert LowerLetters[1] == 'б' && LowerLetters[2] == 'в' && LowerLetters[3] == 'г';
      assert LowerGroups[3] == "g";
      LowerLetter3();
    } else if l == 4 {
      assert LowerLetters[2] == 'в' && LowerLetters[3] == 'г' && LowerLetters[4] == 'д';
      assert LowerGroups[4] == "d";
      LowerLetter4();
    } else {
      assert LowerLetters[3] == 'г' && LowerLetters[4] == 'д' && LowerLetters[5] == 'е';
      assert LowerGroups[5] == "e";
      LowerLetter5();
    }
  }

  /** The keys of ё at 6 are one of the four ways to type it. */
  lemma LowerLetter6()
    ensures WindowStep('д', 'е', "yo", 'ё')
  {
  }

  /** The keys of ж at 7 are one of the four ways to type it. */
  lemma LowerLetter7()
    ensures WindowStep('е', 'ё', "j", 'ж')
  {
  }

  /** The keys of з at 8 are one of the four ways to type it. */
  lemma LowerLetter8()
    ensures WindowStep('ё', 'ж', "z", 'з')
  {
  }

  /** The keys of и at 9 are one of the four ways to type it. */
  lemma LowerLetter9()
    ensures WindowStep('ж', 'з', "i", 'и')
  {
  }

  /** The steps from 6 up to 10. */
  lemma LowerWindows6(l: nat)
    requires 6 <= l < 10
    ensures WindowStep(LowerLetters[l - 2], LowerLetters[l - 1], LowerGroups[l], LowerLetters[l])
  {
    if l == 6 {
      assert LowerLetters[4] == 'д' && LowerLetters[5] == 'е' && LowerLetters[6] == 'ё';
      assert LowerGroups[6] == "yo";
      LowerLetter6();
    } else if l == 7 {
      assert LowerLetters[5] == 'е' && LowerLetters[6] == 'ё' && LowerLetters[7] == 'ж';
      assert LowerGroups[7] == "j";
      LowerLetter7();
    } else if l == 8 {
      assert LowerLetters[6] == 'ё' && LowerLetters[7] == 'ж' && LowerLetters[8] == 'з';
      assert LowerGroups[8] == "z";
      LowerLetter8();
    } else {
      assert LowerLetters[7] == 'ж' && LowerLetters[8] == 'з' && LowerLetters[9] == 'и';
      assert LowerGroups[9] == "i";
      LowerLetter9();
    }
  }

  /** The keys of й at 10 are one of the four ways to type it. */
  lemma LowerLetter10()
    ensures WindowStep('з', 'и', "yi", 'й')
  {
  }

  /** The keys of к at 11 are one of the four ways to type it. */
  lemma LowerLetter11()
    ensures WindowStep('и', 'й', "k", 'к')
  {
  }

  /** The keys of л at 12 are one of the four ways to type it. */
  lemma LowerLetter12()
    ensures WindowStep('й', 'к', "l", 'л')
  {
  }

  /** The keys of м at 13 are one of the four ways to type it. */
  lemma LowerLetter13()
    ensures WindowStep('к', 'л', "m", 'м')
  {
  }

  /** The steps from 10 up to 14. */
  lemma LowerWindows10(l: nat)
    requires 10 <= l < 14
    ensures WindowStep(LowerLetters[l - 2], LowerLetters[l - 1], LowerGroups[l], LowerLetters[l])
  {
    if l == 10 {
      assert LowerLetters[8] == 'з' && LowerLetters[9] == 'и' && LowerLetters[10] == 'й';
      assert LowerGroups[10] == "yi";
      LowerLetter10();
    } else if l == 11 {
      assert LowerLetters[9] == 'и' && LowerLetters[10] == 'й' && LowerLetters[11] == 'к';
      assert LowerGroups[11] == "k";
      LowerLetter11();
    } else if l == 12 {
      assert LowerLetters[10] == 'й' && LowerLetters[11] == 'к' && LowerLetters[12] == 'л';
      assert LowerGroups[12] == "l";
      LowerLetter12();
    } else {
      assert LowerLetters[11] == 'к' && LowerLetters[12] == 'л' && LowerLetters[13] == 'м';
      assert LowerGroups[13] == "m";
      LowerLetter13();
    }
  }

  /** The keys of н at 14 are one of the four ways to type it. */
  lemma LowerLetter14()
    ensures WindowStep('л', 'м', "n", 'н')
  {
  }

  /** The keys of о at 15 are one of the four ways to type it. */
  lemma LowerLetter15()
    ensures WindowStep('м', 'н', "o", 'о')
  {
  }

  /** The keys of п at 16 are one of the four ways to type it. */
  lemma LowerLetter16()
    ensures WindowStep('н', 'о', "p", 'п')
  {
  }

  /** The keys of р at 17 are one of the four ways to type it. */
  lemma LowerLetter17()
    ensures WindowStep('о', 'п', "r", 'р')
  {
  }

  /** The steps from 14 up to 18. */
  lemma LowerWindows14(l: nat)
    requires 14 <= l < 18
    ensures WindowStep(LowerLetters[l - 2], LowerLetters[l - 1], LowerGroups[l], LowerLetters[l])
  {
    if l == 14 {
      assert LowerLetters[12] == 'л' && LowerLetters[13] == 'м' && LowerLetters[14] == 'н';
      assert LowerGroups[14] == "n";
      LowerLetter14();
    } else if l == 15 {
      assert LowerLetters[13] == 'м' && LowerLetters[14] == 'н' && LowerLetters[15] == 'о';
      assert LowerGroups[15] == "o";
      LowerLetter15();
    } else if l == 16 {
      assert LowerLetters[14] == 'н' && LowerLetters[15] == 'о' && LowerLetters[16] == 'п';
      assert LowerGroups[16] == "p";
      LowerLetter16();
    } else {
      assert LowerLetters[15] == 'о' && LowerLetters[16] == 'п' && LowerLetters[17] == 'р';
      assert LowerGroups[17] == "r";
      LowerLetter17();
    }
  }

  /** The keys of с at 18 are one of the four ways to type it. */
  lemma LowerLetter18()
    ensures WindowStep('п', 'р', "c", 'с')
  {
  }

  /** The keys of т at 19 are one of the four ways to type it. */
  lemma LowerLetter19()
    ensures WindowStep('р', 'с', "t", 'т')
  {
  }

  /** The keys of у at 20 are one of the four ways to type it. */
  lemma LowerLetter20()
    ensures WindowStep('с', 'т', "u", 'у')
  {
  }

  /** The keys of ф at 21 are one of the four ways to type it. */
  lemma LowerLetter21()
    ensures WindowStep('т', 'у', "f", 'ф')
  {
  }

  /** The steps from 18 up to 22. */
  lemma LowerWindows18(l: nat)
    requires 18 <= l < 22
    ensures WindowStep(LowerLetters[l - 2], LowerLetters[l - 1], LowerGroups[l], LowerLetters[l])
  {
    if l == 18 {
      assert LowerLetters[16] == 'п' && LowerLetters[17] == 'р' && LowerLetters[18] == 'с';
      assert LowerGroups[18] == "c";
      LowerLetter18();
    } else if l == 19 {
      assert LowerLetters[17] == 'р' && LowerLetters[18] == 'с' && LowerLetters[19] == 'т';
      assert LowerGroups[19] == "t";
      LowerLetter19();
    } else if l == 20 {
      assert LowerLetters[18] == 'с' && LowerLetters[19] == 'т' && LowerLetters[20] == 'у';
      assert LowerGroups[20] == "u";
      LowerLetter20();
    } else {
      assert LowerLetters[19] == 'т' && LowerLetters[20] == 'у' && LowerLetters[21] == 'ф';
      assert LowerGroups[21] == "f";
      LowerLetter21();
    }
  }

  /** The keys of х at 22 are one of the four ways to type it. */
  lemma LowerLetter22()
    ensures WindowStep('у', 'ф', "x", 'х')
  {
  }

  /** The keys of ч at 23 are one of the four ways to type it. */
  lemma LowerLetter23()
    ensures WindowStep('ф', 'х', "ch", 'ч')
  {
  }

  /** The keys of ш at 24 are one of the four ways to type it. */
  lemma LowerLetter24()
    ensures WindowStep('х', 'ч', "sh", 'ш')
  {
  }

  /** The keys of щ at 25 are one of the four ways to type it. */
  lemma LowerLetter25()
    ensures WindowStep('ч', 'ш', "shch", 'щ')
  {
  }

  /** The steps from 22 up to 26. */
  lemma LowerWindows22(l: nat)
    requires 22 <= l < 26
    ensures WindowStep(LowerLetters[l - 2], LowerLetters[l - 1], LowerGroups[l], LowerLetters[l])
  {
    if l == 22 {
      assert LowerLetters[20] == 'у' && LowerLetters[21] == 'ф' && LowerLetters[22] == 'х';
      assert LowerGroups[22] == "x";
      LowerLetter22();
    } else if l == 23 {
      assert LowerLetters[21] == 'ф' && LowerLetters[22] == 'х' && LowerLetters[23] == 'ч';
      assert LowerGroups[23] == "ch";
      LowerLetter23();
    } else if l == 24 {
      assert LowerLetters[22] == 'х' && LowerLetters[23] == 'ч' && LowerLetters[24] == 'ш';
      assert LowerGroups[24] == "sh";
      LowerLetter24();
    } else {
      assert LowerLetters[23] == 'ч' && LowerLetters[24] == 'ш' && LowerLetters[25] == 'щ';
      assert LowerGroups[25] == "shch";
      LowerLetter25();
    }
  }

  /** The keys of ц at 26 are one of the four ways to type it. */
  lemma LowerLetter26()
    ensures WindowStep('ш', 'щ', "ts", 'ц')
  {
  }

  /** The keys of ъ at 27 are one of the four ways to type it. */
  lemma LowerLetter27()
    ensures WindowStep('щ', 'ц', "qd", 'ъ')
  {
  }

  /** The keys of ы at 28 are one of the four ways to type it. */
  lemma LowerLetter28()
    ensures WindowStep('ц', 'ъ', "yy", 'ы')
  {
  }

  /** The keys of ь at 29 are one of the four ways to type it. */
  lemma LowerLetter29()
    ensures WindowStep('ъ', 'ы', "qs", 'ь')
  {
  }

  /** The steps from 26 up to 30. */
  lemma LowerWindows26(l: nat)
    requires 26 <= l < 30
    ensures WindowStep(LowerLetters[l - 2], LowerLetters[l - 1], LowerGroups[l], LowerLetters[l])
  {
    if l == 26 {
      assert LowerLetters[24] == 'ш' && LowerLetters[25] == 'щ' && LowerLetters[26] == 'ц';
      assert LowerGroups[26] == "ts";
      LowerLetter26();
    } else if l == 27 {
      assert LowerLetters[25] == 'щ' && LowerLetters[26] == 'ц' && LowerLetters[27] == 'ъ';
      assert LowerGroups[27] == "qd";
      LowerLetter27();
    } else if l == 28 {
      assert LowerLetters[26] == 'ц' && LowerLetters[27] == 'ъ' && LowerLetters[28] == 'ы';
      assert LowerGroups[28] == "yy";
      LowerLetter28();
    } else {
      assert LowerLetters[27] == 'ъ' && LowerLetters[28] == 'ы' && LowerLetters[29] == 'ь';
      assert LowerGroups[29] == "qs";
      LowerLetter29();
    }
  }

  /** The keys of э at 30 are one of the four ways to type it. */
  lemma LowerLetter30()
    ensures WindowStep('ы', 'ь', "è", 'э')
  {
  }

  /** The keys of ю at 31 are one of the four ways to type it. */
  lemma LowerLetter31()
    ensures WindowStep('ь', 'э', "yu", 'ю')
  {
  }

  /** The keys of я at 32 are one of the four ways to type it. */
  lemma LowerLetter32()
    ensures WindowStep('э', 'ю', "ya", 'я')
  {
  }

  /** The steps from 30 up to 33. */
  lemma LowerWindows30(l: nat)
    requires 30 <= l < 33
    ensures WindowStep(LowerLetters[l - 2], LowerLetters[l - 1], LowerGroups[l], LowerLetters[l])
  {
    if l == 30 {
      assert LowerLetters[28] == 'ы' && LowerLetters[29] == 'ь' && LowerLetters[30] == 'э';
      assert LowerGroups[30] == "è";
      LowerLetter30();
    } else if l == 31 {
      assert LowerLetters[29] == 'ь' && LowerLetters[30] == 'э' && LowerLetters[31] == 'ю';
      assert LowerGroups[31] == "yu";
      LowerLetter31();
    } else {
      assert LowerLetters[30] == 'э' && LowerLetters[31] == 'ю' && LowerLetters[32] == 'я';
      assert LowerGroups[32] == "ya";
      LowerLetter32();
    }
  }

  /** Typing the lower-case alphabet into an empty field, group after
      group: after the first `l` groups the field holds the first `l`
      letters, with the caret after them. */
  lemma LowerAlphabet(l: nat)
    requires l <= |LowerGroups|
    ensures var f := TypeKeys(Blank(), Flatten(LowerGroups[..l]));
      f.value == LowerLetters[..l] && f.caret == l
  {
    LowerSteps();
    TypedGroups(LowerGroups, LowerLetters, l);
    TypeKeysAtEnd(Blank(), Flatten(LowerGroups[..l]));
  }

  /** The keys of the Russian alphabet, upper case, a group per letter. */
  const UpperGroups: seq<string> := ["A", "B", "V", "G", "D", "E", "YO", "J", "Z", "I", "YI", "K", "L", "M", "N", "O", "P", "R", "C", "T", "U", "F", "X", "CH", "SH", "SHCH", "TS", "QD", "YY", "QS", "È", "YU", "YA"]

  /** The Russian alphabet, upper case. */
  const UpperLetters: string := "АБВГДЕЁЖЗИЙКЛМНОПРСТУФХЧШЩЦЪЫЬЭЮЯ"

  /** The first two groups give the first two letters, and every later
      group adds its letter after the two before it. */
  lemma UpperSteps()
    ensures Steps(UpperGroups, UpperLetters)
  {
    assert UpperGroups[0] == "A" && UpperGroups[1] == "B" && UpperLetters[0] == 'А' && UpperLetters[1] == 'Б';
    Start('A', 'А', 'B', 'Б');
    forall l | 2 <= l < |UpperGroups|
      ensures WindowStep(UpperLetters[l - 2], UpperLetters[l - 1], UpperGroups[l], UpperLetters[l])
    {
      if l < 6 {
        UpperWindows2(l);
      } else if l < 10 {
        UpperWindows6(l);
      } else if l < 14 {
        UpperWindows10(l);
      } else if l < 18 {
        UpperWindows14(l);
      } else if l < 22 {
        UpperWindows18(l);
      } else if l < 26 {
        UpperWindows22(l);
      } else if l < 30 {
        UpperWindows26(l);
      } else {
        UpperWindows30(l);
      }
    }
  }

  /** The keys of В at 2 are one of the four ways to type it. */
  lemma UpperLetter2()
    ensures WindowStep('А', 'Б', "V", 'В')
  {
  }

  /** The keys of Г at 3 are one of the four ways to type it. */
  lemma UpperLetter3()
    ensures WindowStep('Б', 'В', "G", 'Г')
  {
  }

  /** The keys of Д at 4 are one of the four ways to type it. */
  lemma UpperLetter4()
    ensures WindowStep('В', 'Г', "D", 'Д')
  {
  }

  /** The keys of Е at 5 are one of the four ways to type it. */
  lemma UpperLetter5()
    ensures WindowStep('Г', 'Д', "E", 'Е')
  {
  }

  /** The steps from 2 up to 6. */
  lemma UpperWindows2(l: nat)
    requires 2 <= l < 6
    ensures WindowStep(UpperLetters[l - 2], UpperLetters[l - 1], UpperGroups[l], UpperLetters[l])
  {
    if l == 2 {
      assert UpperLetters[0] == 'А' && UpperLetters[1] == 'Б' && UpperLetters[2] == 'В';
      assert UpperGroups[2] == "V";
      UpperLetter2();
    } else if l == 3 {
      assert UpperLetters[1] == 'Б' && UpperLetters[2] == 'В' && UpperLetters[3] == 'Г';
      assert UpperGroups[3] == "G";
      UpperLetter3();
    } else if l == 4 {
      assert UpperLetters[2] == 'В' && UpperLetters[3] == 'Г' && UpperLetters[4] == 'Д';
      assert UpperGroups[4] == "D";
      UpperLetter4();
    } else {
      assert UpperLetters[3] == 'Г' && UpperLetters[4] == 'Д' && UpperLetters[5] == 'Е';
      assert UpperGroups[5] == "E";
      UpperLetter5();
    }
  }

  /** The keys of Ё at 6 are one of the four ways to type it. */
  lemma UpperLetter6()
    ensures WindowStep('Д', 'Е', "YO", 'Ё')
  {
  }

  /** The keys of Ж at 7 are one of the four ways to type it. */
  lemma UpperLetter7()
    ensures WindowStep('Е', 'Ё', "J", 'Ж')
  {
  }

  /** The keys of З at 8 are one of the four ways to type it. */
  lemma UpperLetter8()
    ensures WindowStep('Ё', 'Ж', "Z", 'З')
  {
  }

  /** The keys of И at 9 are one of the four ways to type it. */
  lemma UpperLetter9()
    ensures WindowStep('Ж', 'З', "I", 'И')
  {
  }

  /** The steps from 6 up to 10. */
  lemma UpperWindows6(l: nat)
    requires 6 <= l < 10
    ensures WindowStep(UpperLetters[l - 2], UpperLetters[l - 1], UpperGroups[l], UpperLetters[l])
  {
    if l == 6 {
      assert UpperLetters[4] == 'Д' && UpperLetters[5] == 'Е' && UpperLetters[6] == 'Ё';
      assert UpperGroups[6] == "YO";
      UpperLetter6();
    } else if l == 7 {
      assert UpperLetters[5] == 'Е' && UpperLetters[6] == 'Ё' && UpperLetters[7] == 'Ж';
      assert UpperGroups[7] == "J";
      UpperLetter7();
    } else if l == 8 {
      assert UpperLetters[6] == 'Ё' && UpperLetters[7] == 'Ж' && UpperLetters[8] == 'З';
      assert UpperGroups[8] == "Z";
      UpperLetter8();
    } else {
      assert UpperLetters[7] == 'Ж' && UpperLetters[8] == 'З' && UpperLetters[9] == 'И';
      assert UpperGroups[9] == "I";
      UpperLetter9();
    }
  }

  /** The keys of Й at 10 are one of the four ways to type it. */
  lemma UpperLetter10()
    ensures WindowStep('З', 'И', "YI", 'Й')
  {
  }

  /** The keys of К at 11 are one of the four ways to type it. */
  lemma UpperLetter11()
    ensures WindowStep('И', 'Й', "K", 'К')
  {
  }

  /** The keys of Л at 12 are one of the four ways to type it. */
  lemma UpperLetter12()
    ensures WindowStep('Й', 'К', "L", 'Л')
  {
  }

  /** The keys of М at 13 are one of the four ways to type it. */
  lemma UpperLetter13()
    ensures WindowStep('К', 'Л', "M", 'М')
  {
  }

  /** The steps from 10 up to 14. */
  lemma UpperWindows10(l: nat)
    requires 10 <= l < 14
    ensures WindowStep(UpperLetters[l - 2], UpperLetters[l - 1], UpperGroups[l], UpperLetters[l])
  {
    if l == 10 {
      assert UpperLetters[8] == 'З' && UpperLetters[9] == 'И' && UpperLetters[10] == 'Й';
      assert UpperGroups[10] == "YI";
      UpperLetter10();
    } else if l == 11 {
      assert UpperLetters[9] == 'И' && UpperLetters[10] == 'Й' && UpperLetters[11] == 'К';
      assert UpperGroups[11] == "K";
      UpperLetter11();
    } else if l == 12 {
      assert UpperLetters[10] == 'Й' && UpperLetters[11] == 'К' && UpperLetters[12] == 'Л';
      assert UpperGroups[12] == "L";
      UpperLetter12();
    } else {
      assert UpperLetters[11] == 'К' && UpperLetters[12] == 'Л' && UpperLetters[13] == 'М';
      assert UpperGroups[13] == "M";
      UpperLetter13();
    }
  }

  /** The keys of Н at 14 are one of the four ways to type it. */
  lemma UpperLetter14()
    ensures WindowStep('Л', 'М', "N", 'Н')
  {
  }

  /** The keys of О at 15 are one of the four ways to type it. */
  lemma UpperLetter15()
    ensures WindowStep('М', 'Н', "O", 'О')
  {
  }

  /** The keys of П at 16 are one of the four ways to type it. */
  lemma UpperLetter16()
    ensures WindowStep('Н', 'О', "P", 'П')
  {
  }

  /** The keys of Р at 17 are one of the four ways to type it. */
  lemma UpperLetter17()
    ensures WindowStep('О', 'П', "R", 'Р')
  {
  }

  /** The steps from 14 up to 18. */
  lemma UpperWindows14(l: nat)
    requires 14 <= l < 18
    ensures WindowStep(UpperLetters[l - 2], UpperLetters[l - 1], UpperGroups[l], UpperLetters[l])
  {
    if l == 14 {
      assert UpperLetters[12] == 'Л' && UpperLetters[13] == 'М' && UpperLetters[14] == 'Н';
      assert UpperGroups[14] == "N";
      UpperLetter14();
    } else if l == 15 {
      assert UpperLetters[13] == 'М' && UpperLetters[14] == 'Н' && UpperLetters[15] == 'О';
      assert UpperGroups[15] == "O";
      UpperLetter15();
    } else if l == 16 {
      assert UpperLetters[14] == 'Н' && UpperLetters[15] == 'О' && UpperLetters[16] == 'П';
      assert UpperGroups[16] == "P";
      UpperLetter16();
    } else {
      assert UpperLetters[15] == 'О' && UpperLetters[16] == 'П' && UpperLetters[17] == 'Р';
      assert UpperGroups[17] == "R";
      UpperLetter17();
    }
  }

  /** The keys of С at 18 are one of the four ways to type it. */
  lemma UpperLetter18()
    ensures WindowStep('П', 'Р', "C", 'С')
  {
  }

  /** The keys of Т at 19 are one of the four ways to type it. */
  lemma UpperLetter19()
    ensures WindowStep('Р', 'С', "T", 'Т')
  {
  }

  /** The keys of У at 20 are one of the four ways to type it. */
  lemma UpperLetter20()
    ensures WindowStep('С', 'Т', "U", 'У')
  {
  }

  /** The keys of Ф at 21 are one of the four ways to type it. */
  lemma UpperLetter21()
    ensures WindowStep('Т', 'У', "F", 'Ф')
  {
  }

  /** The steps from 18 up to 22. */
  lemma UpperWindows18(l: nat)
    requires 18 <= l < 22
    ensures WindowStep(UpperLetters[l - 2], UpperLetters[l - 1], UpperGroups[l], UpperLetters[l])
  {
    if l == 18 {
      assert UpperLetters[16] == 'П' && UpperLetters[17] == 'Р' && UpperLetters[18] == 'С';
      assert UpperGroups[18] == "C";
      UpperLetter18();
    } else if l == 19 {
      assert UpperLetters[17] == 'Р' && UpperLetters[18] == 'С' && UpperLetters[19] == 'Т';
      assert UpperGroups[19] == "T";
      UpperLetter19();
    } else if l == 20 {
      assert UpperLetters[18] == 'С' && UpperLetters[19] == 'Т' && UpperLetters[20] == 'У';
      assert UpperGroups[20] == "U";
      UpperLetter20();
    } else {
      assert UpperLetters[19] == 'Т' && UpperLetters[20] == 'У' && UpperLetters[21] == 'Ф';
      assert UpperGroups[21] == "F";
      UpperLetter21();
    }
  }

  /** The keys of Х at 22 are one of the four ways to type it. */
  lemma UpperLetter22()
    ensures WindowStep('У', 'Ф', "X", 'Х')
  {
  }

  /** The keys of Ч at 23 are one of the four ways to type it. */
  lemma UpperLetter23()
    ensures WindowStep('Ф', 'Х', "CH", 'Ч')
  {
  }

  /** The keys of Ш at 24 are one of the four ways to type it. */
  lemma UpperLetter24()
    ensures WindowStep('Х', 'Ч', "SH", 'Ш')
  {
  }

  /** The keys of Щ at 25 are one of the four ways to type it. */
  lemma UpperLetter25()
    ensures WindowStep('Ч', 'Ш', "SHCH", 'Щ')
  {
  }

  /** The steps from 22 up to 26. */
  lemma UpperWindows22(l: nat)
    requires 22 <= l < 26
    ensures WindowStep(UpperLetters[l - 2], UpperLetters[l - 1], UpperGroups[l], UpperLetters[l])
  {
    if l == 22 {
      assert UpperLetters[20] == 'У' && UpperLetters[21] == 'Ф' && UpperLetters[22] == 'Х';
      assert UpperGroups[22] == "X";
      UpperLetter22();
    } else if l == 23 {
      assert UpperLetters[21] == 'Ф' && UpperLetters[22] == 'Х' && UpperLetters[23] == 'Ч';
      assert UpperGroups[23] == "CH";
      UpperLetter23();
    } else if l == 24 {
      assert UpperLetters[22] == 'Х' && UpperLetters[23] == 'Ч' && UpperLetters[24] == 'Ш';
      assert UpperGroups[24] == "SH";
      UpperLetter24();
    } else {
      assert UpperLetters[23] == 'Ч' && UpperLetters[24] == 'Ш' && UpperLetters[25] == 'Щ';
      assert UpperGroups[25] == "SHCH";
      UpperLetter25();
    }
  }

  /** The keys of Ц at 26 are one of the four ways to type it. */
  lemma UpperLetter26()
    ensures WindowStep('Ш', 'Щ', "TS", 'Ц')
  {
  }

  /** The keys of Ъ at 27 are one of the four ways to type it. */
  lemma UpperLetter27()
    ensures WindowStep('Щ', 'Ц', "QD", 'Ъ')
  {
  }

  /** The keys of Ы at 28 are one of the four ways to type it. */
  lemma UpperLetter28()
    ensures WindowStep('Ц', 'Ъ', "YY", 'Ы')
  {
  }

  /** The keys of Ь at 29 are one of the four ways to type it. */
  lemma UpperLetter29()
    ensures WindowStep('Ъ', 'Ы', "QS", 'Ь')
  {
  }

  /** The steps from 26 up to 30. */
  lemma UpperWindows26(l: nat)
    requires 26 <= l < 30
    ensures WindowStep(UpperLetters[l - 2], UpperLetters[l - 1], UpperGroups[l], UpperLetters[l])
  {
    if l == 26 {
      assert UpperLetters[24] == 'Ш' && UpperLetters[25] == 'Щ' && UpperLetters[26] == 'Ц';
      assert UpperGroups[26] == "TS";
      UpperLetter26();
    } else if l == 27 {
      assert UpperLetters[25] == 'Щ' && UpperLetters[26] == 'Ц' && UpperLetters[27] == 'Ъ';
      assert UpperGroups[27] == "QD";
      UpperLetter27();
    } else if l == 28 {
      assert UpperLetters[26] == 'Ц' && UpperLetters[27] == 'Ъ' && UpperLetters[28] == 'Ы';
      assert UpperGroups[28] == "YY";
      UpperLetter28();
    } else {
      assert UpperLetters[27] == 'Ъ' && UpperLetters[28] == 'Ы' && UpperLetters[29] == 'Ь';
      assert UpperGroups[29] == "QS";
      UpperLetter29();
    }
  }

  /** The keys of Э at 30 are one of the four ways to type it. */
  lemma UpperLetter30()
    ensures WindowStep('Ы', 'Ь', "È", 'Э')
  {
  }

  /** The keys of Ю at 31 are one of the four ways to type it. */
  lemma UpperLetter31()
    ensures WindowStep('Ь', 'Э', "YU", 'Ю')
  {
  }

  /** The keys of Я at 32 are one of the four ways to type it. */
  lemma UpperLetter32()
    ensures WindowStep('Э', 'Ю', "YA", 'Я')
  {
  }

  /** The steps from 30 up to 33. */
  lemma UpperWindows30(l: nat)
    requires 30 <= l < 33
    ensures WindowStep(UpperLetters[l - 2], UpperLetters[l - 1], UpperGroups[l], UpperLetters[l])
  {
    if l == 30 {
      assert UpperLetters[28] == 'Ы' && UpperLetters[29] == 'Ь' && UpperLetters[30] == 'Э';
      assert UpperGroups[30] == "È";
      UpperLetter30();
    } else if l == 31 {
      assert UpperLetters[29] == 'Ь' && UpperLetters[30] == 'Э' && UpperLetters[31] == 'Ю';
      assert UpperGroups[31] == "YU";
      UpperLetter31();
    } else {
      assert UpperLetters[30] == 'Э' && UpperLetters[31] == 'Ю' && UpperLetters[32] == 'Я';
      assert UpperGroups[32] == "YA";
      UpperLetter32();
    }
  }

  /** Typing the upper-case alphabet into an empty field, group after
      group: after the first `l` groups the field holds the first `l`
      letters, with the caret after them. */
  lemma UpperAlphabet(l: nat)
    requires l <= |UpperGroups|
    ensures var f := TypeKeys(Blank(), Flatten(UpperGroups[..l]));
      f.value == UpperLetters[..l] && f.caret == l
  {
    UpperSteps();
    TypedGroups(UpperGroups, UpperLetters, l);
    TypeKeysAtEnd(Blank(), Flatten(UpperGroups[..l]));
  }
}
