/** One decoded journal record and its normalisation (`LogRetriever.mklog`):
    the MESSAGE field is split at its first ':' into TYPE and the rest, a
    LUA-typed message is matched against the error pattern
    `^(.+):(\d)+: (.*)`, and every value that is a string of digits becomes
    an integer. */
module LogRecords {
  import opened Common

  /** A JSON value as the model sees it: text or an integer. */
  datatype Value = S(s: string) | I(i: int)

  /** A decoded JSON object: field name to value. */
  type Record = map<string, Value>

  /** Why a refresh raises instead of returning. */
  datatype LogError =
    | MalformedLine       // json.loads rejected a line, or it did not decode to an object
    | MissingMessage      // no MESSAGE field, or MESSAGE is not a string
    | LuaPatternMismatch  // a LUA-typed message the error pattern does not match
    | MissingTimestamp    // no integer __MONOTONIC_TIMESTAMP to sort by
    | DupNotInteger       // a DUP field holding text meets `+ skips`

  const MessageKey := "MESSAGE"
  const TypeKey := "TYPE"
  const LuaFileKey := "LUA_FILE"
  const LuaLineKey := "LUA_LINE"
  const LuaErrorKey := "LUA_ERROR"

  // ---------------------------------------------------------------------------
  // str.partition(":")

  /** The text before the first `sep` and the text after it. */
  function Partition(s: string, sep: char): (string, string)
    decreases |s|
  {
    if s == [] then ("", "")
    else if s[0] == sep then ("", s[1..])
    else var (before, after) := Partition(s[1..], sep); ([s[0]] + before, after)
  }

  /** The head holds no separator; with a separator present, head, separator
      and tail put back together give the input; without one, the whole
      input is the head and the tail is empty. */
  lemma {:induction false} PartitionSplits(s: string, sep: char)
    ensures sep !in Partition(s, sep).0
    ensures sep in s ==> s == Partition(s, sep).0 + [sep] + Partition(s, sep).1
    ensures sep !in s ==> Partition(s, sep) == (s, "")
    decreases |s|
  {
    if s != [] && s[0] != sep {
      PartitionSplits(s[1..], sep);
      assert s == [s[0]] + s[1..];
    }
  }

  /** The head is exactly the text before the first separator. */
  lemma {:induction false} PartitionAtFirst(s: string, sep: char, i: nat)
    requires i < |s| && s[i] == sep && sep !in s[..i]
    ensures Partition(s, sep) == (s[..i], s[i + 1..])
    decreases i
  {
    if i > 0 {
      assert s[0] == s[..i][0];
      assert s[1..][..i - 1] == s[1..i];
      assert s[1..][..i - 1] == s[..i][1..];
      PartitionAtFirst(s[1..], sep, i - 1);
      assert [s[0]] + s[1..i] == s[..i];
    }
  }

  // ---------------------------------------------------------------------------
  // The Lua error pattern ^(.+):(\d)+: (.*)

  /** Length of the run of ASCII digits that starts at index i. */
  function DigitRun(s: string, i: nat): (n: nat)
    requires i <= |s|
    ensures i + n <= |s|
    ensures forall j :: i <= j < i + n ==> IsDigit(s[j])
    ensures i + n < |s| ==> !IsDigit(s[i + n])
    decreases |s| - i
  {
    if i < |s| && IsDigit(s[i]) then 1 + DigitRun(s, i + 1) else 0
  }

  /** End of the line that starts at index i: the first newline, or the end. */
  function LineEnd(s: string, i: nat): (j: nat)
    requires i <= |s|
    ensures i <= j <= |s|
    ensures forall k :: i <= k < j ==> s[k] != '\n'
    ensures j < |s| ==> s[j] == '\n'
    decreases |s| - i
  {
    if i < |s| && s[i] != '\n' then LineEnd(s, i + 1) else i
  }

  /** The pattern matches with its first group `(.+)` ending just before the
      ':' at index p: a non-empty newline-free prefix, the ':', a digit run
      (the greedy `(\d)+` takes the whole run), then ": ". */
  predicate LuaMatchesAt(s: string, p: nat) {
    && 1 <= p < |s|
    && s[p] == ':'
    && (forall j :: 0 <= j < p ==> s[j] != '\n')
    && var d := DigitRun(s, p + 1);
       d >= 1 && p + d + 2 < |s| && s[p + d + 1] == ':' && s[p + d + 2] == ' '
  }

  /** The three groups of the match at p. The repeated group `(\d)` keeps its
      last repetition only, so the line group is the last digit of the run;
      `(.*)` runs to the end of the line. */
  datatype LuaGroups = LuaGroups(file: string, line: string, error: string)

  function GroupsAt(s: string, p: nat): (g: LuaGroups)
    requires LuaMatchesAt(s, p)
    ensures |g.line| == 1 && IsDigit(g.line[0])
  {
    var d := DigitRun(s, p + 1);
    var e := p + d + 3;
    LuaGroups(s[..p], s[p + d..p + d + 1], s[e..LineEnd(s, e)])
  }

  /** Backtracking search: the greedy `(.+)` tries the longest first group
      first, so the match uses the largest p <= hi at which the pattern fits. */
  function LuaSearch(s: string, hi: nat): (r: Option<nat>)
    ensures r.Some? ==> r.value <= hi && LuaMatchesAt(s, r.value)
    ensures r.Some? ==> forall q: nat :: r.value < q <= hi ==> !LuaMatchesAt(s, q)
    ensures r.None? ==> forall q: nat :: q <= hi ==> !LuaMatchesAt(s, q)
    decreases hi
  {
    if hi == 0 then None
    else if LuaMatchesAt(s, hi) then Some(hi)
    else LuaSearch(s, hi - 1)
  }

  /** The LUA error pattern of window.py:127 as written, anchored at the
      start: the groups at the largest position where it fits. */
  function LuaErrorMatch(s: string): Option<LuaGroups> {
    match LuaSearch(s, |s|)
    case None => None
    case Some(p) => Some(GroupsAt(s, p))
  }

  /** The match fails exactly when no position fits; otherwise it reports the
      groups at a position that fits and beyond which none does. */
  lemma LuaErrorMatchSpec(s: string)
    ensures LuaErrorMatch(s).Some? <==> exists p: nat :: LuaMatchesAt(s, p)
    ensures LuaErrorMatch(s).Some? ==>
      exists p: nat :: LuaMatchesAt(s, p) && LuaErrorMatch(s).value == GroupsAt(s, p) &&
        forall q: nat :: p < q ==> !LuaMatchesAt(s, q)
  {
    var r := LuaSearch(s, |s|);
    if r.Some? {
      assert forall q: nat :: r.value < q ==> !LuaMatchesAt(s, q);
    } else {
      assert forall q: nat :: !LuaMatchesAt(s, q);
    }
  }

  lemma {:induction false} DigitRunExact(s: string, i: nat, n: nat)
    requires i + n <= |s|
    requires forall j :: i <= j < i + n ==> IsDigit(s[j])
    requires i + n < |s| ==> !IsDigit(s[i + n])
    ensures DigitRun(s, i) == n
    decreases n
  {
    if n > 0 {
      DigitRunExact(s, i + 1, n - 1);
    }
  }

  lemma {:induction false} LineEndAtEnd(s: string, i: nat)
    requires i <= |s|
    requires forall j :: i <= j < |s| ==> s[j] != '\n'
    ensures LineEnd(s, i) == |s|
    decreases |s| - i
  {
    if i < |s| {
      LineEndAtEnd(s, i + 1);
    }
  }

  /** A message whose first ':' followed by digits and ": " is at p, and
      whose text after that holds no ':' and no newline, matches at p. */
  lemma LuaSearchLayout(s: string, p: nat, d: nat)
    requires 1 <= p && d >= 1 && p + d + 2 < |s|
    requires s[p] == ':' && (forall j :: 0 <= j < p ==> s[j] != '\n')
    requires forall j :: p + 1 <= j < p + 1 + d ==> IsDigit(s[j])
    requires s[p + d + 1] == ':' && s[p + d + 2] == ' '
    requires forall j :: p + d + 3 <= j < |s| ==> s[j] != ':' && s[j] != '\n'
    ensures LuaSearch(s, |s|) == Some(p) && DigitRun(s, p + 1) == d && LineEnd(s, p + d + 3) == |s|
  {
    DigitRunExact(s, p + 1, d);
    assert LuaMatchesAt(s, p);
    forall q: nat | p < q < |s| ensures !LuaMatchesAt(s, q) {
      if q == p + d + 1 {
        DigitRunExact(s, q + 1, 0);
      }
    }
    LineEndAtEnd(s, p + d + 3);
  }

  /** The groups of such a message, under both patterns. */
  lemma LuaGroupsLayout(s: string, p: nat, d: nat)
    requires 1 <= p && d >= 1 && p + d + 2 < |s|
    requires s[p] == ':' && (forall j :: 0 <= j < p ==> s[j] != '\n')
    requires forall j :: p + 1 <= j < p + 1 + d ==> IsDigit(s[j])
    requires s[p + d + 1] == ':' && s[p + d + 2] == ' '
    requires forall j :: p + d + 3 <= j < |s| ==> s[j] != ':' && s[j] != '\n'
    ensures LuaErrorMatch(s) == Some(LuaGroups(s[..p], s[p + d..p + d + 1], s[p + d + 3..]))
    ensures LuaErrorMatchFixed(s) == Some(LuaGroups(s[..p], s[p + 1..p + 1 + d], s[p + d + 3..]))
  {
    LuaSearchLayout(s, p, d);
    assert s[p + d + 3..|s|] == s[p + d + 3..];
  }

  /** The text `file:digits: error` laid out character by character. */
  lemma LuaLayout(file: string, digits: string, error: string)
    requires |file| >= 1 && '\n' !in file
    requires IsDigitString(digits)
    requires ':' !in error && '\n' !in error
    ensures var s := file + ":" + digits + ": " + error;
      var p, d := |file|, |digits|;
      && p + d + 2 < |s| && s[p] == ':' && s[p + d + 1] == ':' && s[p + d + 2] == ' '
      && s[..p] == file && s[p + 1..p + 1 + d] == digits && s[p + d + 3..] == error
      && (forall j :: 0 <= j < p ==> s[j] != '\n')
      && (forall j :: p + 1 <= j < p + 1 + d ==> IsDigit(s[j]))
      && (forall j :: p + d + 3 <= j < |s| ==> s[j] != ':' && s[j] != '\n')
  {
    var s := file + ":" + digits + ": " + error;
    var p, d := |file|, |digits|;
    assert s[..p] == file;
    assert s[p + 1..p + 1 + d] == digits;
    assert s[p + d + 3..] == error;
    assert forall j :: 0 <= j < p ==> s[j] == file[j];
    assert forall j :: p + 1 <= j < p + 1 + d ==> s[j] == digits[j - p - 1];
    assert forall j :: p + d + 3 <= j < |s| ==> s[j] == error[j - p - d - 3];
  }

  /** A message laid out as `file:digits: error`, with no ':' in the error
      text, matches at the ':' after the file; the line group is the LAST
      digit of the line number only ("x.lua:42: boom" gives "2"). */
  lemma LuaMatchKeepsLastDigit(file: string, digits: string, error: string)
    requires |file| >= 1 && '\n' !in file
    requires IsDigitString(digits)
    requires ':' !in error && '\n' !in error
    ensures LuaErrorMatch(file + ":" + digits + ": " + error) ==
      Some(LuaGroups(file, [digits[|digits| - 1]], error))
  {
    var s := file + ":" + digits + ": " + error;
    var p, d := |file|, |digits|;
    LuaLayout(file, digits, error);
    LuaGroupsLayout(s, p, d);
    assert s[p + d..p + d + 1] == [digits[d - 1]];
  }

  /** The evidently intended line group `(\d+)`: the whole digit run. */
  function GroupsAtFixed(s: string, p: nat): (g: LuaGroups)
    requires LuaMatchesAt(s, p)
    ensures IsDigitString(g.line)
  {
    var d := DigitRun(s, p + 1);
    var e := p + d + 3;
    LuaGroups(s[..p], s[p + 1..p + 1 + d], s[e..LineEnd(s, e)])
  }

  /** The pattern with the digit group taken as one group of one or more
      digits: the same positions fit, and the line group is the whole
      number. */
  function LuaErrorMatchFixed(s: string): Option<LuaGroups> {
    match LuaSearch(s, |s|)
    case None => None
    case Some(p) => Some(GroupsAtFixed(s, p))
  }

  /** With `(\d+)` the line group is the whole line number, so its value is
      the number the message names ("x.lua:42: boom" gives 42). */
  lemma LuaMatchFixedKeepsLine(file: string, digits: string, error: string)
    requires |file| >= 1 && '\n' !in file
    requires IsDigitString(digits)
    requires ':' !in error && '\n' !in error
    ensures LuaErrorMatchFixed(file + ":" + digits + ": " + error) == Some(LuaGroups(file, digits, error))
    ensures LuaErrorMatch(file + ":" + digits + ": " + error).Some?
  {
    var s := file + ":" + digits + ": " + error;
    LuaLayout(file, digits, error);
    LuaGroupsLayout(s, |file|, |digits|);
  }

  // ---------------------------------------------------------------------------
  // Digit coercion

  /** A value that is a digit string becomes the integer it spells. */
  function Coerce(v: Value): Value {
    if v.S? && IsDigitString(v.s) then I(DecimalValue(v.s)) else v
  }

  function Coerced(log: Record): Record {
    map k | k in log :: Coerce(log[k])
  }

  /** Coercion keeps every key, turns exactly the digit strings into their
      numbers, and leaves no digit string behind, so a second pass changes
      nothing. */
  lemma CoercedSpec(log: Record)
    ensures Coerced(log).Keys == log.Keys
    ensures forall k :: k in log && log[k].S? && IsDigitString(log[k].s) ==>
      Coerced(log)[k] == I(DecimalValue(log[k].s))
    ensures forall k :: k in log && !(log[k].S? && IsDigitString(log[k].s)) ==>
      Coerced(log)[k] == log[k]
    ensures Coerced(Coerced(log)) == Coerced(log)
  {
    var c := Coerced(log);
    assert forall k :: k in c ==> Coerce(c[k]) == c[k];
  }

  /** "17" becomes 17; "17x" and "" stay text. */
  lemma CoerceExamples()
    ensures Coerce(S("17")) == I(17)
    ensures Coerce(S("17x")) == S("17x")
    ensures Coerce(S("")) == S("")
  {
    assert IsDigitString("17");
    assert "17"[..1] == "1" && "1"[..0] == "";
    assert DecimalValue("17") == 17;
    assert !IsDigitString("17x") by { assert !IsDigit("17x"[2]); }
  }

  /** The coercion loop of mklog: a snapshot of the items is walked and every
      digit-string value is replaced by its integer. */
  method CoerceDigitStrings(log: Record) returns (r: Record)
    ensures r == Coerced(log)
  {
    r := log;
    var pending := log.Keys;
    while pending != {}
      invariant pending <= log.Keys
      invariant r.Keys == log.Keys
      invariant forall k :: k in r && k in pending ==> r[k] == log[k]
      invariant forall k :: k in r && k !in pending ==> r[k] == Coerce(log[k])
      decreases pending
    {
      var k :| k in pending;
      var v := log[k];
      if v.S? && IsDigitString(v.s) {
        r := r[k := I(DecimalValue(v.s))];
      }
      pending := pending - {k};
    }
  }

  // ---------------------------------------------------------------------------
  // mklog

  /** The LUA test compares the upper-cased type with "LUA". */
  predicate IsLuaType(t: string) {
    Upper(t) == "LUA"
  }

  /** The test is case-insensitive: exactly the three-letter spellings of
      l, u, a in either case pass. */
  lemma IsLuaTypeCaseInsensitive(t: string)
    ensures IsLuaType(t) <==>
      |t| == 3 && (t[0] == 'l' || t[0] == 'L') && (t[1] == 'u' || t[1] == 'U') &&
      (t[2] == 'a' || t[2] == 'A')
  {
    if |t| == 3 {
      var u := Upper(t);
      assert u[0] == UpperChar(t[0]) && u[1] == UpperChar(t[1]) && u[2] == UpperChar(t[2]);
      if u == "LUA" {
        assert u[0] == 'L' && u[1] == 'U' && u[2] == 'A';
      }
    }
  }

  /** The record with TYPE and MESSAGE written from the two halves of the
      message. */
  function WithType(log: Record, head: string, rest: string): Record {
    log[TypeKey := S(head)][MessageKey := S(rest)]
  }

  /** The record with the three groups of a Lua error written into it; the
      line group is already converted by `int()`. */
  function WithLuaGroups(rec: Record, g: LuaGroups): Record
    requires DigitsOnly(g.line)
  {
    rec[LuaFileKey := S(g.file)][LuaLineKey := I(DecimalValue(g.line))][LuaErrorKey := S(g.error)]
  }

  /** mklog up to its coercion loop: the message split, and for a LUA record
      the error groups; a missing or non-text MESSAGE and a LUA message the
      pattern does not fit are errors. */
  function Rewritten(log: Record): Result<Record, LogError> {
    if MessageKey !in log || !log[MessageKey].S? then Err(MissingMessage)
    else
      var (head, rest) := Partition(log[MessageKey].s, ':');
      if !IsLuaType(head) then Ok(WithType(log, head, rest))
      else
        match LuaErrorMatch(rest)
        case None => Err(LuaPatternMismatch)
        case Some(g) => Ok(WithLuaGroups(WithType(log, head, rest), g))
  }

  /** What `mklog` makes of a decoded record: the rewritten record with every
      digit string coerced. */
  function Normalise(log: Record): (r: Result<Record, LogError>)
    ensures r.Ok? ==> MessageKey in r.value && TypeKey in r.value
  {
    match Rewritten(log)
    case Err(e) => Err(e)
    case Ok(rec) => Ok(Coerced(rec))
  }

  /** `mklog` rewrites the record in place; here the rewritten record is the
      result. */
  method MkLog(log: Record) returns (r: Result<Record, LogError>)
    ensures r == Normalise(log)
  {
    if MessageKey !in log || !log[MessageKey].S? {
      return Err(MissingMessage);
    }
    var parts := Partition(log[MessageKey].s, ':');
    var rec := log[TypeKey := S(parts.0)];
    rec := rec[MessageKey := S(parts.1)];
    if IsLuaType(parts.0) {
      var m := LuaErrorMatch(parts.1);
      if m.None? {
        return Err(LuaPatternMismatch);
      }
      var g := m.value;
      rec := rec[LuaFileKey := S(g.file)][LuaLineKey := S(g.line)][LuaErrorKey := S(g.error)];
      rec := rec[LuaLineKey := I(DecimalValue(g.line))];
      assert rec == WithLuaGroups(WithType(log, parts.0, parts.1), g);
    }
    var coerced := CoerceDigitStrings(rec);
    return Ok(coerced);
  }

  lemma KeysDistinct()
    ensures TypeKey != MessageKey
    ensures LuaFileKey !in {TypeKey, MessageKey, LuaLineKey, LuaErrorKey}
    ensures LuaLineKey !in {TypeKey, MessageKey, LuaErrorKey}
    ensures LuaErrorKey !in {TypeKey, MessageKey}
  {
    assert LuaFileKey[4] != LuaLineKey[4];
  }

  /** TYPE is the text before the first ':' and MESSAGE the text after it
      (each coerced like any other field); with no ':' TYPE is the whole
      message and MESSAGE is empty. */
  lemma NormaliseSplitsMessage(log: Record)
    requires MessageKey in log && log[MessageKey].S?
    requires Normalise(log).Ok?
    ensures var m := log[MessageKey].s; var r := Normalise(log).value;
      && (':' !in m ==> r[TypeKey] == Coerce(S(m)) && r[MessageKey] == S(""))
      && (forall i :: 0 <= i < |m| && m[i] == ':' && ':' !in m[..i] ==>
            r[TypeKey] == Coerce(S(m[..i])) && r[MessageKey] == Coerce(S(m[i + 1..])))
  {
    var m := log[MessageKey].s;
    var (head, rest) := Partition(m, ':');
    var rec := Rewritten(log).value;
    KeysDistinct();
    assert rec[TypeKey] == S(head) && rec[MessageKey] == S(rest);
    CoercedSpec(rec);
    assert Normalise(log).value == Coerced(rec);
    PartitionSplits(m, ':');
    forall i | 0 <= i < |m| && m[i] == ':' && ':' !in m[..i]
      ensures (head, rest) == (m[..i], m[i + 1..])
    {
      PartitionAtFirst(m, ':', i);
    }
  }

  /** A normalised record keeps every other field of the input (coerced),
      and no field of it is left holding a digit string. */
  lemma NormaliseCoercesEveryField(log: Record, k: string)
    requires Normalise(log).Ok?
    ensures var r := Normalise(log).value;
      && (k in log && k !in {TypeKey, MessageKey, LuaFileKey, LuaLineKey, LuaErrorKey} ==>
            k in r && r[k] == Coerce(log[k]))
      && (k in r ==> !(r[k].S? && IsDigitString(r[k].s)))
  {
    var rec := Rewritten(log).value;
    assert Normalise(log).value == Coerced(rec);
    if k in log && k !in {TypeKey, MessageKey, LuaFileKey, LuaLineKey, LuaErrorKey} {
      assert k in rec && rec[k] == log[k];
    }
  }

  /** A LUA record whose message fits the pattern gains the file, the line
      and the error text (each coerced); any case of "lua" triggers it, TYPE
      keeps the case it was written in, and LUA_LINE is the last digit of the
      line number. */
  lemma NormaliseLuaRecord(log: Record, t: string, file: string, digits: string, error: string)
    requires IsLuaType(t)
    requires |file| >= 1 && '\n' !in file
    requires IsDigitString(digits)
    requires ':' !in error && '\n' !in error
    requires MessageKey in log && log[MessageKey] == S(t + ":" + file + ":" + digits + ": " + error)
    ensures var r := Normalise(log);
      && r.Ok?
      && r.value[TypeKey] == S(t)
      && r.value[MessageKey] == Coerce(S(file + ":" + digits + ": " + error))
      && r.value[LuaFileKey] == Coerce(S(file))
      && r.value[LuaLineKey] == I(DigitValue(digits[|digits| - 1]))
      && r.value[LuaErrorKey] == Coerce(S(error))
  {
    var rest := file + ":" + digits + ": " + error;
    var g := LuaGroups(file, [digits[|digits| - 1]], error);
    var rec := WithLuaGroups(WithType(log, t, rest), g);
    RewrittenLuaRecord(log, t, file, digits, error);
    assert Normalise(log) == Ok(Coerced(rec));
    KeysDistinct();
    assert rec[TypeKey] == S(t);
    assert rec[MessageKey] == S(rest);
    assert rec[LuaFileKey] == S(file);
    assert rec[LuaLineKey] == I(DecimalValue(g.line));
    assert rec[LuaErrorKey] == S(error);
    assert DecimalValue(g.line) == DigitValue(digits[|digits| - 1]) by {
      assert g.line[..0] == "";
    }
    assert Coerce(S(t)) == S(t) by { IsLuaTypeCaseInsensitive(t); assert !IsDigit(t[0]); }
  }

  lemma RewrittenLuaRecord(log: Record, t: string, file: string, digits: string, error: string)
    requires IsLuaType(t)
    requires |file| >= 1 && '\n' !in file
    requires IsDigitString(digits)
    requires ':' !in error && '\n' !in error
    requires MessageKey in log && log[MessageKey] == S(t + ":" + file + ":" + digits + ": " + error)
    ensures Rewritten(log) == Ok(WithLuaGroups(WithType(log, t, file + ":" + digits + ": " + error),
                                               LuaGroups(file, [digits[|digits| - 1]], error)))
  {
    var rest := file + ":" + digits + ": " + error;
    var m := t + ":" + rest;
    assert log[MessageKey] == S(m);
    IsLuaTypeCaseInsensitive(t);
    assert m[..|t|] == t && m[|t| + 1..] == rest;
    PartitionAtFirst(m, ':', |t|);
    LuaMatchKeepsLastDigit(file, digits, error);
  }

  /** A LUA record whose message the pattern fits at no position is an
      error. */
  lemma NormaliseLuaMismatch(log: Record, t: string, rest: string)
    requires IsLuaType(t)
    requires MessageKey in log && log[MessageKey] == S(t + ":" + rest)
    requires forall p: nat :: !LuaMatchesAt(rest, p)
    ensures Normalise(log) == Err(LuaPatternMismatch)
  {
    var m := t + ":" + rest;
    IsLuaTypeCaseInsensitive(t);
    PartitionAtFirst(m, ':', |t|);
    assert m[..|t|] == t && m[|t| + 1..] == rest;
    LuaErrorMatchSpec(rest);
  }
}
