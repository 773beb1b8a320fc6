/** The key-capture dialog of the editor window: key presses and releases
    build a list of key names and hardware codes until a non-modifier key
    ends the capture; OK hands the lists to `insertKeyHandler`, which turns
    them into the head of a Hawck mapping. Also `getScriptName`. */
module KeyCapture {
  import opened Common

  /** `MODIFIER_NAMES` (the source lists the Shift names twice; the set has
      each once). */
  const ModifierNames: set<string> :=
    {"Alt", "Alt_L", "Alt_R", "Control", "Control_L", "Control_R",
     "Shift", "Shift_L", "Shift_R", "AltGr"}

  predicate IsModifier(name: string) {
    name in ModifierNames
  }

  /** Every modifier name is longer than one character. */
  lemma ModifiersAreLong(name: string)
    ensures IsModifier(name) ==> |name| > 1
  {
  }

  /** The name a key is captured under: a one-character name that is not a
      modifier is upper-cased, every other name is kept. */
  function CapturedName(name: string): (n: string)
    ensures |n| == |name|
    ensures Upper(n) == Upper(name)
    ensures IsModifier(n) <==> IsModifier(name)
    ensures !IsModifier(name) && |name| == 1 ==> n == Upper(name)
    ensures IsModifier(name) || |name| != 1 ==> n == name
  {
    if !IsModifier(name) && |name| == 1 then Upper(name) else name
  }

  /** Capturing a captured name changes nothing. */
  lemma CapturedNameIdempotent(name: string)
    ensures CapturedName(CapturedName(name)) == CapturedName(name)
  {
    if !IsModifier(name) && |name| == 1 {
      var u := Upper(name);
      assert Upper(u) == u;
    }
  }

  /** A one-character key other than a modifier is captured in upper case,
      whatever case it was pressed in. */
  lemma CapturedNameCaseInsensitive(a: string, b: string)
    requires |a| == 1 && Upper(a) == Upper(b)
    ensures CapturedName(a) == CapturedName(b)
  {
    ModifiersAreLong(a);
    ModifiersAreLong(b);
  }

  // ---------------------------------------------------------------------------
  // list.index and list.remove

  /** `s.index(x)`: the first position of x, or None for the ValueError. */
  function IndexOf<T(==)>(s: seq<T>, x: T): (r: Option<nat>)
    ensures r.None? <==> x !in s
    ensures r.Some? ==> r.value < |s| && s[r.value] == x && x !in s[..r.value]
  {
    if s == [] then None
    else if s[0] == x then Some(0)
    else match IndexOf(s[1..], x)
      case None => None
      case Some(i) =>
        assert s[..i + 1] == [s[0]] + s[1..][..i];
        Some(i + 1)
  }

  /** The first position of x is at most any position holding x. */
  lemma {:induction false} IndexOfAtMost<T>(s: seq<T>, x: T, i: nat)
    requires i < |s| && s[i] == x
    ensures IndexOf(s, x).Some? && IndexOf(s, x).value <= i
    decreases i
  {
    if s[0] != x {
      IndexOfAtMost(s[1..], x, i - 1);
    }
  }

  /** `s.remove(x)`: drop the first occurrence of x (x must occur). */
  function RemoveFirst<T(==)>(s: seq<T>, x: T): (r: seq<T>)
    requires x in s
    ensures |r| == |s| - 1
  {
    if s[0] == x then s[1..] else [s[0]] + RemoveFirst(s[1..], x)
  }

  /** Removing the first occurrence cuts x out at the position `index`
      reports and keeps the rest in order. */
  lemma {:induction false} RemoveFirstAt<T>(s: seq<T>, x: T)
    requires x in s
    ensures var i := IndexOf(s, x).value;
      RemoveFirst(s, x) == s[..i] + s[i + 1..]
    decreases |s|
  {
    if s[0] != x {
      RemoveFirstAt(s[1..], x);
      var i := IndexOf(s[1..], x).value;
      assert s[1..][..i] == s[1..i + 1];
      assert s[1..][i + 1..] == s[i + 2..];
      assert s[..i + 1] == [s[0]] + s[1..i + 1];
    }
  }

  /** Cutting out one position takes out exactly one copy of its element. */
  lemma CutOne<T>(s: seq<T>, i: nat)
    requires i < |s|
    ensures multiset(s[..i] + s[i + 1..]) == multiset(s) - multiset{s[i]}
  {
    assert s == s[..i] + [s[i]] + s[i + 1..];
  }

  /** Removing the first occurrence takes out exactly one copy of x. */
  lemma RemoveFirstSpec<T>(s: seq<T>, x: T)
    requires x in s
    ensures var i := IndexOf(s, x).value;
      RemoveFirst(s, x) == s[..i] + s[i + 1..]
    ensures multiset(RemoveFirst(s, x)) == multiset(s) - multiset{x}
  {
    RemoveFirstAt(s, x);
    CutOne(s, IndexOf(s, x).value);
  }

  // ---------------------------------------------------------------------------
  // The capture state machine

  /** `keycap_names`, `keycap_codes`, `keycap_done`. */
  datatype Capture = Capture(names: seq<string>, codes: seq<int>, done: bool)

  const Empty := Capture([], [], false)

  /** One code per name; before the capture is done every name is a
      modifier; once done, modifiers followed by exactly one other key; and a
      one-character key name is upper case. */
  predicate CaptureValid(c: Capture) {
    && |c.names| == |c.codes|
    && (forall i :: 0 <= i < |c.names| - 1 ==> IsModifier(c.names[i]))
    && (!c.done ==> forall i :: 0 <= i < |c.names| ==> IsModifier(c.names[i]))
    && (c.done ==> c.names != [] && !IsModifier(c.names[|c.names| - 1]))
    && (forall i :: 0 <= i < |c.names| && |c.names[i]| == 1 ==> c.names[i] == Upper(c.names[i]))
  }

  /** `onKeyCaptureKeyPress`. */
  function Pressed(c: Capture, name: string, code: int): Capture {
    if c.done then c
    else
      var n := CapturedName(name);
      if c.names != [] && c.names[|c.names| - 1] == n then c
      else Capture(c.names + [n], c.codes + [code], !IsModifier(name))
  }

  /** `onKeyCaptureKeyRelease`: the name's first position selects a code, and
      the first copy of that code's value is removed with the name. */
  function Released(c: Capture, name: string): Capture
    requires |c.names| == |c.codes|
  {
    if c.done then c
    else
      var n := CapturedName(name);
      match IndexOf(c.names, n)
      case None => c
      case Some(idx) => Capture(RemoveFirst(c.names, n), RemoveFirst(c.codes, c.codes[idx]), c.done)
  }

  /** A press either is ignored (capture finished, or the same key as the
      last one) or appends the key's name and code, and finishes the capture
      exactly when the key is not a modifier; the capture stays valid. */
  lemma PressedSpec(c: Capture, name: string, code: int)
    requires CaptureValid(c)
    ensures var p := Pressed(c, name, code);
      && CaptureValid(p)
      && (c.done ==> p == c)
      && (!c.done && c.names != [] && c.names[|c.names| - 1] == CapturedName(name) ==> p == c)
      && (!c.done && (c.names == [] || c.names[|c.names| - 1] != CapturedName(name)) ==>
            p == Capture(c.names + [CapturedName(name)], c.codes + [code], !IsModifier(name)))
  {
    var p := Pressed(c, name, code);
    var n := CapturedName(name);
    if p != c {
      if |n| == 1 {
        ModifiersAreLong(n);
        var u := Upper(name);
        assert Upper(u) == u;
      }
      assert p.names[|p.names| - 1] == n;
    }
  }

  /** Cutting one name (and some code) out of an unfinished capture leaves
      a valid unfinished capture. */
  lemma CutKeepsValid(c: Capture, idx: nat, codes: seq<int>)
    requires CaptureValid(c) && !c.done && idx < |c.names| && |codes| == |c.codes| - 1
    ensures CaptureValid(Capture(c.names[..idx] + c.names[idx + 1..], codes, false))
  {
    var names := c.names[..idx] + c.names[idx + 1..];
    forall i | 0 <= i < |names|
      ensures IsModifier(names[i]) && (|names[i]| == 1 ==> names[i] == Upper(names[i]))
    {
      if i < idx {
        assert names[i] == c.names[i];
      } else {
        assert names[i] == c.names[i + 1];
      }
    }
  }

  /** A release of a captured key before the capture is done removes one
      name and one code; the name removed is the key's first occurrence and
      the code removed is one copy of that position's code. */
  lemma ReleasedSpec(c: Capture, name: string)
    requires CaptureValid(c)
    ensures var r := Released(c, name);
      && CaptureValid(r)
      && (c.done || CapturedName(name) !in c.names ==> r == c)
      && (!c.done && CapturedName(name) in c.names ==>
            var idx := IndexOf(c.names, CapturedName(name)).value;
            && r.names == c.names[..idx] + c.names[idx + 1..]
            && multiset(r.codes) == multiset(c.codes) - multiset{c.codes[idx]}
            && |r.codes| == |c.codes| - 1
            && !r.done)
  {
    var n := CapturedName(name);
    if !c.done && n in c.names {
      var idx := IndexOf(c.names, n).value;
      var codes := RemoveFirst(c.codes, c.codes[idx]);
      RemoveFirstAt(c.names, n);
      RemoveFirstSpec(c.codes, c.codes[idx]);
      CutKeepsValid(c, idx, codes);
      assert Released(c, name) == Capture(c.names[..idx] + c.names[idx + 1..], codes, false);
    }
  }

  /** When each code belongs to one name, a release removes the name and its
      own code: the two lists stay paired position by position. */
  lemma ReleaseKeepsPairs(c: Capture, name: string)
    requires CaptureValid(c) && !c.done && CapturedName(name) in c.names
    requires forall i, j :: 0 <= i < |c.codes| && 0 <= j < |c.codes| && c.codes[i] == c.codes[j] ==> c.names[i] == c.names[j]
    ensures var idx := IndexOf(c.names, CapturedName(name)).value;
      Released(c, name).codes == c.codes[..idx] + c.codes[idx + 1..]
  {
    var n := CapturedName(name);
    var idx := IndexOf(c.names, n).value;
    var code := c.codes[idx];
    RemoveFirstAt(c.codes, code);
    var j := IndexOf(c.codes, code).value;
    IndexOfAtMost(c.codes, code, idx);
    IndexOfAtMost(c.names, n, j);
  }

  class KeyCapturer {
    var names: seq<string>
    var codes: seq<int>
    var done: bool

    function State(): Capture
      reads this
    {
      Capture(names, codes, done)
    }

    ghost predicate Valid()
      reads this
    {
      CaptureValid(State())
    }

    /** The three fields as `HawckMainWindow.__init__` sets them. */
    constructor ()
      ensures State() == Empty && Valid()
    {
      names := [];
      codes := [];
      done := false;
    }

    method KeyPress(name: string, code: int)
      requires Valid()
      modifies this
      ensures State() == Pressed(old(State()), name, code)
      ensures Valid()
    {
      PressedSpec(State(), name, code);
      if done {
        return;
      }
      var isModifier := IsModifier(name);
      var n := name;
      if !isModifier && |n| == 1 {
        n := Upper(n);
      }
      if names != [] && names[|names| - 1] == n {
        return;
      }
      names := names + [n];
      codes := codes + [code];
      if !isModifier {
        done := true;
      }
    }

    method KeyRelease(name: string)
      requires Valid()
      modifies this
      ensures State() == Released(old(State()), name)
      ensures Valid()
    {
      ReleasedSpec(State(), name);
      if done {
        return;
      }
      var n := CapturedName(name);
      var idx := IndexOf(names, n);
      if idx.None? {
        return;
      }
      codes := RemoveFirst(codes, codes[idx.value]);
      names := RemoveFirst(names, n);
    }

    method Reset()
      modifies this
      ensures State() == Empty && Valid()
    {
      names := [];
      codes := [];
      done := false;
    }

    /** `onKeyCaptureOK`: hands over the captured lists; the signal's class
        handler then resets the capture. */
    method Ok() returns (capturedNames: seq<string>, capturedCodes: seq<int>)
      modifies this
      ensures capturedNames == old(names) && capturedCodes == old(codes)
      ensures State() == Empty && Valid()
    {
      capturedNames := names;
      capturedCodes := codes;
      names := [];
      codes := [];
      Reset();
    }
  }

  // ---------------------------------------------------------------------------
  // insertKeyHandler and getScriptName

  function LowerAll(names: seq<string>): (r: seq<string>)
    ensures |r| == |names| && forall i :: 0 <= i < |names| ==> r[i] == Lower(names[i])
  {
    seq(|names|, i requires 0 <= i < |names| => Lower(names[i]))
  }

  /** `" + ".join(parts)`. */
  function JoinPlus(parts: seq<string>): string
    decreases |parts|
  {
    if parts == [] then ""
    else if |parts| == 1 then parts[0]
    else parts[0] + " + " + JoinPlus(parts[1..])
  }

  /** Each part followed by " + ". */
  function Terminated(parts: seq<string>): string
    decreases |parts|
  {
    if parts == [] then "" else parts[0] + " + " + Terminated(parts[1..])
  }

  lemma {:induction false} JoinThenSeparator(parts: seq<string>)
    requires parts != []
    ensures JoinPlus(parts) + " + " == Terminated(parts)
    decreases |parts|
  {
    if |parts| > 1 {
      JoinThenSeparator(parts[1..]);
    }
  }

  /** The text `insertKeyHandler` inserts at the cursor, or None when no key
      was captured (`names[-1]` raises). */
  function KeyHandlerText(names: seq<string>): Option<string> {
    if names == [] then None
    else
      var mods := LowerAll(names[..|names| - 1]);
      Some("down + " + JoinPlus(mods) + " + key \"" + Lower(names[|names| - 1]) + "\" => ")
  }

  /** The evidently intended text: each modifier followed by " + ", then the
      key; a lone key gives `down + key "a" => `. */
  function KeyHandlerTextFixed(names: seq<string>): Option<string> {
    if names == [] then None
    else
      var mods := LowerAll(names[..|names| - 1]);
      Some("down + " + Terminated(mods) + "key \"" + Lower(names[|names| - 1]) + "\" => ")
  }

  /** With at least one modifier the handler's text is the intended one. */
  lemma KeyHandlerTextWithModifiers(names: seq<string>)
    requires |names| >= 2
    ensures KeyHandlerText(names) == KeyHandlerTextFixed(names)
  {
    var mods := LowerAll(names[..|names| - 1]);
    var last := Lower(names[|names| - 1]);
    JoinThenSeparator(mods);
    assert "down + " + JoinPlus(mods) + " + key \"" + last + "\" => "
        == "down + " + (JoinPlus(mods) + " + ") + "key \"" + last + "\" => ";
  }

  /** A lone key gives a doubled " + " with nothing between: `down +  + key "a" => `. */
  lemma KeyHandlerTextLoneKey(key: string)
    ensures KeyHandlerText([key]) == Some("down +  + key \"" + Lower(key) + "\" => ")
    ensures KeyHandlerTextFixed([key]) == Some("down + key \"" + Lower(key) + "\" => ")
    ensures KeyHandlerText([key]) != KeyHandlerTextFixed([key])
  {
    var last := Lower(key);
    var mods := LowerAll([key][..0]);
    assert mods == [];
    assert "down + " + JoinPlus(mods) + " + key \"" == "down +  + key \"";
    assert "down + " + Terminated(mods) + "key \"" == "down + key \"";
    var a := "down +  + key \"" + last + "\" => ";
    var b := "down + key \"" + last + "\" => ";
    assert a[7] == ' ' && b[7] == 'k';
  }

  /** The largest index of c in s. */
  function LastIndex(s: string, c: char): (r: Option<nat>)
    ensures r.None? <==> c !in s
    ensures r.Some? ==> r.value < |s| && s[r.value] == c && c !in s[r.value + 1..]
    decreases |s|
  {
    if s == [] then None
    else if s[|s| - 1] == c then Some(|s| - 1)
    else
      var r := LastIndex(s[..|s| - 1], c);
      assert s == s[..|s| - 1] + [s[|s| - 1]];
      if r.Some? then
        assert s[r.value + 1..] == s[..|s| - 1][r.value + 1..] + [s[|s| - 1]];
        r
      else r
  }

  /** `os.path.basename`: the text after the last '/'. */
  function BaseName(path: string): string {
    match LastIndex(path, '/')
    case None => path
    case Some(i) => path[i + 1..]
  }

  /** `os.path.splitext(name)[0]`: cut at the last '.', unless only dots
      precede it (a leading-dot name has no extension). */
  function StripExt(name: string): string {
    match LastIndex(name, '.')
    case None => name
    case Some(d) => if exists i :: 0 <= i < d && name[i] != '.' then name[..d] else name
  }

  /** `getScriptName`. */
  function ScriptName(path: string): (n: string)
    ensures '/' !in n
  {
    StripExt(BaseName(path))
  }

  /** The basename of `dir/base` is base. */
  lemma BaseNameOf(dir: string, base: string)
    requires '/' !in base
    ensures BaseName(dir + "/" + base) == base
  {
    var d := dir + "/";
    LastIndexAfter(d, base, '/');
    assert (d + base)[|d|..] == base;
  }

  /** The root of `stem.ext` is the stem when the stem has a non-dot. */
  lemma StripExtOf(stem: string, ext: string)
    requires '.' !in ext
    requires exists i :: 0 <= i < |stem| && stem[i] != '.'
    ensures StripExt(stem + "." + ext) == stem
  {
    var d := stem + ".";
    LastIndexAfter(d, ext, '.');
    var name := d + ext;
    assert name[..|stem|] == stem;
    var i :| 0 <= i < |stem| && stem[i] != '.';
    assert name[i] == stem[i];
  }

  /** The script name of `dir/stem.ext` is the stem, dots inside the stem
      included, whenever the stem is not made of dots only. */
  lemma ScriptNameOfPath(dir: string, stem: string, ext: string)
    requires '/' !in stem && '/' !in ext && '.' !in ext
    requires exists i :: 0 <= i < |stem| && stem[i] != '.'
    ensures ScriptName(dir + "/" + stem + "." + ext) == stem
  {
    var base := stem + "." + ext;
    assert '/' !in base;
    assert dir + "/" + stem + "." + ext == dir + "/" + base;
    BaseNameOf(dir, base);
    StripExtOf(stem, ext);
  }

  /** Appending text without c does not move the last c. */
  lemma {:induction false} LastIndexSkips(a: string, b: string, c: char)
    requires c !in b
    ensures LastIndex(a + b, c) == LastIndex(a, c)
    decreases |b|
  {
    if b == [] {
      assert a + b == a;
    } else {
      var s := a + b;
      var b' := b[..|b| - 1];
      assert s[|s| - 1] == b[|b| - 1];
      assert s[..|s| - 1] == a + b';
      assert forall x :: x in b' ==> x in b;
      LastIndexSkips(a, b', c);
    }
  }

  /** The last c of `a + b`, where a ends with c and b has none, ends a. */
  lemma LastIndexAfter(a: string, b: string, c: char)
    requires a != [] && a[|a| - 1] == c && c !in b
    ensures LastIndex(a + b, c) == Some(|a| - 1)
  {
    LastIndexSkips(a, b, c);
  }

  /** A name whose only dot leads it, like `.hwk`, has no extension to strip. */
  lemma ScriptNameLeadingDot(ext: string)
    requires '/' !in ext && '.' !in ext
    ensures ScriptName("." + ext) == "." + ext
  {
    var s := "." + ext;
    assert '/' !in s;
    LastIndexAfter(".", ext, '.');
  }
}
