/**
  The keystroke buffer of `BraidProvider`
  (`lib/components/BraidProvider/BraidProvider.tsx`): unless it is nested in
  another `BraidProvider`, the provider listens to `keydown` on the window and
  keeps the keys typed in a closed-over string.  When the buffer ends in
  `dark` the dark-mode class is added to the document element, when it ends
  in `light` the class is removed; either match clears the buffer, and the
  buffer is cut back to its last five characters.

  A key is `KeyboardEvent.key`, which is a whole string (`"a"`, `"Shift"`,
  `"Enter"`) and is appended as it is.  The dark-mode class name is a
  generated CSS class, passed in as `darkMode`.
 */
module ColorModeToggle {
  import opened JsStrings

  /** What a keystroke does to the dark-mode class. */
  datatype Toggle = Unchanged | AddDark | RemoveDark

  datatype KeyResult = KeyResult(code: string, toggle: Toggle)

  /** The last five characters of `s`, or all of a shorter `s`. */
  function LastFive(s: string): (r: string)
    ensures |r| <= 5 && EndsWith(s, r)
    ensures |s| <= 5 ==> r == s
  {
    if |s| > 5 then s[|s| - 5..] else s
  }

  /**
    What a keystroke should do, stated by the word the typed text ends with:
    `dark` turns dark mode on, `light` turns it off, and either clears the
    buffer; otherwise the buffer keeps its last five characters.
   */
  function Keystroke(code: string, key: string): (r: KeyResult)
    ensures |r.code| <= 5
    ensures r.toggle != Unchanged ==> r.code == ""
    ensures r.toggle == Unchanged ==> EndsWith(code + key, r.code)
  {
    var typed := code + key;
    if EndsWith(typed, "dark") then KeyResult("", AddDark)
    else if EndsWith(typed, "light") then KeyResult("", RemoveDark)
    else KeyResult(LastFive(typed), Unchanged)
  }

  /** One call of `colorModeToggle`, on the buffer `code`, as the source computes it. */
  function KeyDown(code: string, key: string): (r: KeyResult)
    ensures r == Keystroke(code, key)
    ensures |r.code| <= 5
  {
    var typed := code + key;
    SubstrFromEndIsSuffixTest(typed, "dark");
    var afterDark := if Substr(typed, |typed| - 4) == "dark" then KeyResult("", AddDark) else KeyResult(typed, Unchanged);
    SubstrFromEndIsSuffixTest(afterDark.code, "light");
    var afterLight :=
      if Substr(afterDark.code, |afterDark.code| - 5) == "light" then KeyResult("", RemoveDark) else afterDark;
    if |afterLight.code| > 5 then
      SubstrKeepsLast(afterLight.code, 5);
      afterLight.(code := Substr(afterLight.code, |afterLight.code| - 5))
    else afterLight
  }

  /** Whether the document is in dark mode after `t`. */
  function DarkAfter(dark: bool, t: Toggle): (r: bool)
    ensures t == Unchanged ==> r == dark
    ensures t != Unchanged ==> r == t.AddDark?
  {
    match t
    case Unchanged => dark
    case AddDark => true
    case RemoveDark => false
  }

  /** The buffer and whether the document is in dark mode. */
  datatype Session = Session(code: string, dark: bool)

  /** One keystroke on the session. */
  function Step(s: Session, key: string): (r: Session)
    ensures |r.code| <= 5
    ensures r.dark != s.dark ==> r.code == ""
  {
    var r := Keystroke(s.code, key);
    Session(r.code, DarkAfter(s.dark, r.toggle))
  }

  /** The session after a run of keystrokes. */
  function Type(s: Session, keys: seq<string>): (r: Session)
    ensures |s.code| <= 5 || keys != [] ==> |r.code| <= 5
    decreases |keys|
  {
    if keys == [] then s else Type(Step(s, keys[0]), keys[1..])
  }

  /** The dark-mode state changes only on a keystroke that completes `dark` or `light`. */
  lemma DarkChangesOnlyOnSuffix(s: Session, key: string)
    ensures Step(s, key).dark != s.dark ==>
              (!s.dark && EndsWith(s.code + key, "dark")) || (s.dark && EndsWith(s.code + key, "light"))
  {
  }

  /**
    A keystroke of one character other than `k` and `t` completes neither word,
    leaves the dark-mode state alone, and the buffer keeps what it ended with,
    followed by the new character, up to five characters.
   */
  lemma KeyExtendsBuffer(s: Session, typed: string, key: string)
    requires EndsWith(s.code, typed) && |typed| < 5
    requires |key| == 1 && key[0] != 'k' && key[0] != 't'
    ensures Step(s, key).dark == s.dark
    ensures EndsWith(Step(s, key).code, typed + key)
  {
    var all := s.code + key;
    assert all[|all| - 1] == key[0];
    if EndsWith(all, "dark") {
      EndsWithLast(all, "dark");
    }
    if EndsWith(all, "light") {
      EndsWithLast(all, "light");
    }
    assert key == [key[0]];
    EndsWithAppend(s.code, typed, key[0]);
    if |all| > 5 {
      EndsWithTail(all, typed + key, 5);
    }
  }

  /** The keys of a run, joined. */
  function Concat(keys: seq<string>): string
    decreases |keys|
  {
    if keys == [] then "" else keys[0] + Concat(keys[1..])
  }

  /** A one-character key that is neither `k` nor `t`. */
  predicate IsNeutralKey(key: string)
  {
    |key| == 1 && key[0] != 'k' && key[0] != 't'
  }

  lemma {:induction false} TypeAppend(s: Session, first: seq<string>, rest: seq<string>)
    ensures Type(s, first + rest) == Type(Type(s, first), rest)
    decreases |first|
  {
    if first != [] {
      assert (first + rest)[1..] == first[1..] + rest;
      TypeAppend(Step(s, first[0]), first[1..], rest);
    } else {
      assert first + rest == rest;
    }
  }

  /** One neutral key: the session it leads to, as far as the rest of the run is concerned. */
  lemma NeutralKeyStep(s: Session, typed: string, keys: seq<string>) returns (next: Session)
    requires keys != [] && IsNeutralKey(keys[0])
    requires EndsWith(s.code, typed) && |typed| < 5
    ensures Type(s, keys) == Type(next, keys[1..])
    ensures next.dark == s.dark && EndsWith(next.code, typed + keys[0])
  {
    next := Step(s, keys[0]);
    KeyExtendsBuffer(s, typed, keys[0]);
  }

  lemma ConcatCons(typed: string, keys: seq<string>)
    requires keys != []
    ensures typed + keys[0] + Concat(keys[1..]) == typed + Concat(keys)
  {
  }

  /**
    A run of at most five neutral keys leaves the dark-mode state alone, and the
    buffer ends with what it ended with before followed by the run.
   */
  lemma {:induction false} NeutralKeysExtendBuffer(s: Session, typed: string, keys: seq<string>)
    requires EndsWith(s.code, typed) && |typed| + |keys| <= 5
    requires forall i | 0 <= i < |keys| :: IsNeutralKey(keys[i])
    ensures Type(s, keys).dark == s.dark
    ensures EndsWith(Type(s, keys).code, typed + Concat(keys))
    decreases |keys|
  {
    if keys != [] {
      assert IsNeutralKey(keys[0]);
      var next := NeutralKeyStep(s, typed, keys);
      var rest := keys[1..];
      assert forall i | 0 <= i < |rest| :: IsNeutralKey(rest[i]) by {
        forall i | 0 <= i < |rest| ensures IsNeutralKey(rest[i]) {
          assert rest[i] == keys[i + 1];
        }
      }
      NeutralKeysExtendBuffer(next, typed + keys[0], rest);
      ConcatCons(typed, keys);
    }
  }

  lemma TypeThenKey(s: Session, keys: seq<string>, key: string)
    ensures Type(s, keys + [key]) == Step(Type(s, keys), key)
  {
    TypeAppend(s, keys, [key]);
    var x := Type(s, keys);
    assert Type(x, [key]) == Type(Step(x, key), []);
  }

  /**
    After neutral keys that spell the first letters of a word, the key that
    completes it toggles dark mode, whatever the buffer held before.
   */
  lemma {:induction false} CompletingKeyToggles(s: Session, prefix: seq<string>, last: char, word: string, dark: bool)
    requires forall i | 0 <= i < |prefix| :: IsNeutralKey(prefix[i])
    requires |prefix| < 5 && Concat(prefix) + [last] == word
    requires word == "dark" || word == "light"
    requires dark <==> word == "dark"
    ensures Type(s, prefix + [[last]]) == Session("", dark)
  {
    NeutralKeysExtendBuffer(s, "", prefix);
    var x := Type(s, prefix);
    assert EndsWith(x.code, Concat(prefix));
    EndsWithAppend(x.code, Concat(prefix), last);
    var all := x.code + [last];
    assert EndsWith(all, word);
    if word == "light" && EndsWith(all, "dark") {
      EndsWithLast(all, "dark");
      EndsWithLast(all, "light");
    }
    TypeThenKey(s, prefix, [last]);
  }

  /** Typing `d`, `a`, `r`, `k` turns dark mode on, whatever was typed before. */
  lemma TypingDarkTurnsDarkModeOn(s: Session)
    ensures Type(s, ["d", "a", "r", "k"]) == Session("", true)
  {
    var prefix := ["d", "a", "r"];
    assert Concat(prefix) + ['k'] == "dark";
    assert prefix + [['k']] == ["d", "a", "r", "k"];
    CompletingKeyToggles(s, prefix, 'k', "dark", true);
  }

  /** Typing `l`, `i`, `g`, `h`, `t` turns dark mode off, whatever was typed before. */
  lemma TypingLightTurnsDarkModeOff(s: Session)
    ensures Type(s, ["l", "i", "g", "h", "t"]) == Session("", false)
  {
    var prefix := ["l", "i", "g", "h"];
    assert Concat(prefix) + ['t'] == "light";
    assert prefix + [['t']] == ["l", "i", "g", "h", "t"];
    CompletingKeyToggles(s, prefix, 't', "light", false);
  }

  /** The class list of `document.documentElement`. */
  class DocumentElement {
    var classList: set<string>

    constructor(classes: set<string>)
      ensures classList == classes
    {
      classList := classes;
    }
  }

  /** The classes after `t`, as `classList.add` and `classList.remove` leave them. */
  function ToggledClasses(classes: set<string>, t: Toggle, darkMode: string): (r: set<string>)
    ensures darkMode in r <==> DarkAfter(darkMode in classes, t)
    ensures r - {darkMode} == classes - {darkMode}
  {
    match t
    case Unchanged => classes
    case AddDark => classes + {darkMode}
    case RemoveDark => classes - {darkMode}
  }

  /** The `colorModeToggle` listener with its closed-over buffer `code`. */
  class KeyListener {
    var code: string
    const root: DocumentElement
    const darkMode: string

    /** `let code = ''` */
    constructor(root: DocumentElement, darkMode: string)
      ensures code == "" && this.root == root && this.darkMode == darkMode
    {
      code := "";
      this.root := root;
      this.darkMode := darkMode;
    }

    /** `colorModeToggle(ev)` for a keydown whose `ev.key` is `key`. */
    method OnKeyDown(key: string)
      modifies this, root
      ensures code == KeyDown(old(code), key).code
      ensures root.classList == ToggledClasses(old(root.classList), KeyDown(old(code), key).toggle, darkMode)
    {
      ghost var before := code;
      code := code + key;
      SubstrFromEndIsSuffixTest(code, "dark");
      if Substr(code, |code| - 4) == "dark" {
        root.classList := root.classList + {darkMode};
        code := "";
      }
      SubstrFromEndIsSuffixTest(code, "light");
      if Substr(code, |code| - 5) == "light" {
        root.classList := root.classList - {darkMode};
        code := "";
      }
      if |code| > 5 {
        code := Substr(code, |code| - 5);
      }
      assert KeyDown(before, key).code == code;
    }
  }

  /**
    The effect: no listener when already inside a `BraidProvider`, otherwise a
    fresh listener with an empty buffer.
   */
  method Install(alreadyInBraidProvider: bool, root: DocumentElement, darkMode: string) returns (listener: KeyListener?)
    ensures listener == null <==> alreadyInBraidProvider
    ensures listener != null ==>
              fresh(listener) && listener.code == "" && listener.root == root && listener.darkMode == darkMode
  {
    if alreadyInBraidProvider {
      return null;
    }
    listener := new KeyListener(root, darkMode);
  }
}
