/** The keyboard daemon's passthrough-key bookkeeping: which key codes are
    handed to the macro daemon, kept as one code list per CSV source file and
    the set of all codes; the file-system events that load and unload those
    sources; and the per-key routing with its consecutive socket-error
    counter from the daemon's main loop. */
module KbdDaemon {
  import opened Common

  // ---------------------------------------------------------------------------
  // std::stoi

  datatype StoiError = InvalidArgument | OutOfRange

  const IntMin: int := -0x8000_0000
  const IntMax: int := 0x7FFF_FFFF

  /** `isspace` in the C locale. */
  predicate IsSpace(c: char) {
    c == ' ' || c == '\t' || c == '\n' || c == 11 as char || c == 12 as char || c == '\r'
  }

  predicate AllSpace(s: string) {
    forall i :: 0 <= i < |s| ==> IsSpace(s[i])
  }

  /** Drops the leading white space. */
  function SkipSpace(s: string): (r: string)
    ensures |r| <= |s|
    ensures r != [] ==> !IsSpace(r[0])
    decreases |s|
  {
    if s != [] && IsSpace(s[0]) then SkipSpace(s[1..]) else s
  }

  /** The longest prefix of decimal digits. */
  function DigitPrefix(s: string): (d: string)
    ensures DigitsOnly(d) && |d| <= |s| && d == s[..|d|]
    ensures |d| < |s| ==> !IsDigit(s[|d|])
    decreases |s|
  {
    if s != [] && IsDigit(s[0]) then
      var d := [s[0]] + DigitPrefix(s[1..]);
      assert forall i :: 1 <= i < |d| ==> d[i] == DigitPrefix(s[1..])[i - 1];
      d
    else []
  }

  function SignedValue(negative: bool, digits: string): int
    requires DigitsOnly(digits)
  {
    if negative then -(DecimalValue(digits) as int) else DecimalValue(digits)
  }

  /** The digits after the sign: at least one, and within `int`. */
  function StoiDigits(negative: bool, u: string): (r: Result<int, StoiError>)
    ensures r.Ok? ==> IntMin <= r.value <= IntMax
  {
    var d := DigitPrefix(u);
    if d == [] then Err(InvalidArgument)
    else
      var v := SignedValue(negative, d);
      if v < IntMin || v > IntMax then Err(OutOfRange) else Ok(v)
  }

  /** The text after the white space: an optional sign, then the digits. */
  function StoiSigned(t: string): (r: Result<int, StoiError>)
    ensures r.Ok? ==> IntMin <= r.value <= IntMax
  {
    if t != [] && t[0] == '-' then StoiDigits(true, t[1..])
    else if t != [] && t[0] == '+' then StoiDigits(false, t[1..])
    else StoiDigits(false, t)
  }

  /** `std::stoi` in base 10: leading white space, an optional sign, then at
      least one digit (otherwise invalid_argument); whatever follows the
      digits is ignored; a value outside `int` is out_of_range. */
  function Stoi(s: string): (r: Result<int, StoiError>)
    ensures r.Ok? ==> IntMin <= r.value <= IntMax
  {
    StoiSigned(SkipSpace(s))
  }

  lemma {:induction false} SkipSpaceOf(ws: string, rest: string)
    requires AllSpace(ws)
    requires rest == [] || !IsSpace(rest[0])
    ensures SkipSpace(ws + rest) == rest
    decreases |ws|
  {
    if ws == [] {
      assert ws + rest == rest;
    } else {
      assert (ws + rest)[1..] == ws[1..] + rest;
      SkipSpaceOf(ws[1..], rest);
    }
  }

  lemma {:induction false} DigitPrefixOf(digits: string, tail: string)
    requires DigitsOnly(digits)
    requires tail == [] || !IsDigit(tail[0])
    ensures DigitPrefix(digits + tail) == digits
    decreases |digits|
  {
    if digits == [] {
      assert digits + tail == tail;
    } else {
      assert (digits + tail)[1..] == digits[1..] + tail;
      DigitPrefixOf(digits[1..], tail);
    }
  }

  lemma StoiDigitsReads(negative: bool, digits: string, tail: string)
    requires IsDigitString(digits)
    requires tail == [] || !IsDigit(tail[0])
    ensures var v := SignedValue(negative, digits);
      StoiDigits(negative, digits + tail) == if IntMin <= v <= IntMax then Ok(v) else Err(OutOfRange)
  {
    DigitPrefixOf(digits, tail);
  }

  /** White space, a sign, digits and a tail that does not start with a
      digit read as the signed value of the digits, or out_of_range. */
  lemma StoiReads(ws: string, sign: string, digits: string, tail: string)
    requires AllSpace(ws)
    requires sign == "" || sign == "+" || sign == "-"
    requires IsDigitString(digits)
    requires tail == [] || !IsDigit(tail[0])
    ensures var v := SignedValue(sign == "-", digits);
      Stoi(ws + sign + digits + tail) == if IntMin <= v <= IntMax then Ok(v) else Err(OutOfRange)
  {
    var u := digits + tail;
    var rest := sign + u;
    assert ws + sign + digits + tail == ws + rest;
    assert u[0] == digits[0];
    if sign == "" {
      assert rest == u;
    } else {
      assert rest[0] == sign[0] && rest[1..] == u;
    }
    SkipSpaceOf(ws, rest);
    StoiDigitsReads(sign == "-", digits, tail);
  }

  /** A text with no digit after the white space and the sign is invalid. */
  lemma StoiRejects(ws: string, sign: string, tail: string)
    requires AllSpace(ws)
    requires sign == "" || sign == "+" || sign == "-"
    requires tail == [] || (!IsDigit(tail[0]) && (sign == "" ==> !IsSpace(tail[0]) && tail[0] != '-' && tail[0] != '+'))
    ensures Stoi(ws + sign + tail) == Err(InvalidArgument)
  {
    var rest := sign + tail;
    assert ws + sign + tail == ws + rest;
    if sign == "" {
      assert rest == tail;
    } else {
      assert rest[0] == sign[0] && rest[1..] == tail;
    }
    SkipSpaceOf(ws, rest);
  }

  /** The decimal text of every non-negative `int` reads back as itself. */
  lemma StoiDecimalRoundTrip(n: nat)
    requires n <= IntMax
    ensures Stoi(DecimalText(n)) == Ok(n)
  {
    DecimalRoundTrip(n);
    StoiReads("", "", DecimalText(n), "");
    assert "" + "" + DecimalText(n) + "" == DecimalText(n);
  }

  // ---------------------------------------------------------------------------
  // key_sources and passthrough_keys

  function Elems(s: seq<int>): set<int> {
    set c | c in s
  }

  lemma ElemsSnoc(s: seq<int>, c: int)
    ensures Elems(s + [c]) == Elems(s) + {c}
  {
    assert forall x :: x in s + [c] <==> x in s || x == c;
  }

  /** The codes of the sources in `paths`. */
  function UnionOver(sources: map<string, seq<int>>, paths: set<string>): set<int> {
    set p, c | p in sources && p in paths && c in sources[p] :: c
  }

  /** The codes of all sources. */
  function Union(sources: map<string, seq<int>>): set<int> {
    UnionOver(sources, sources.Keys)
  }

  lemma UnionOverAdd(sources: map<string, seq<int>>, paths: set<string>, p: string)
    requires p in sources
    ensures UnionOver(sources, paths + {p}) == UnionOver(sources, paths) + Elems(sources[p])
  {
    forall c | c in UnionOver(sources, paths + {p})
      ensures c in UnionOver(sources, paths) + Elems(sources[p])
    {
      var q, d :| q in sources && q in paths + {p} && d in sources[q] && d == c;
      if q != p {
        assert q in paths;
      }
    }
    forall c | c in UnionOver(sources, paths) + Elems(sources[p])
      ensures c in UnionOver(sources, paths + {p})
    {
      if c in sources[p] {
        assert p in sources && p in paths + {p};
      } else {
        var q, d :| q in sources && q in paths && d in sources[q] && d == c;
        assert q in paths + {p};
      }
    }
  }

  /** Only the sources named matter. */
  lemma UnionOverAgree(a: map<string, seq<int>>, b: map<string, seq<int>>, paths: set<string>)
    requires paths <= a.Keys && paths <= b.Keys
    requires forall p :: p in paths ==> a[p] == b[p]
    ensures UnionOver(a, paths) == UnionOver(b, paths)
  {
    forall c | c in UnionOver(a, paths) ensures c in UnionOver(b, paths) {
      var q, d :| q in a && q in paths && d in a[q] && d == c;
      assert q in b && d in b[q];
    }
    forall c | c in UnionOver(b, paths) ensures c in UnionOver(a, paths) {
      var q, d :| q in b && q in paths && d in b[q] && d == c;
      assert q in a && d in a[q];
    }
  }

  /** `key_sources` (path to the codes it lists) and `passthrough_keys`. */
  datatype Table = Table(sources: map<string, seq<int>>, keys: set<int>)

  /** The set is exactly the union of the sources' codes. */
  predicate Consistent(t: Table) {
    t.keys == Union(t.sources)
  }

  /** `unloadPassthrough`: a known path's codes are erased, the path is
      dropped, and every remaining source's codes are inserted again. */
  function Unloaded(t: Table, path: string): (r: Table)
    ensures path !in r.sources
    ensures path !in t.sources ==> r == t
    ensures path in t.sources ==> r.sources == t.sources - {path} && Union(r.sources) <= r.keys
  {
    if path !in t.sources then t
    else
      var rest := t.sources - {path};
      Table(rest, (t.keys - Elems(t.sources[path])) + Union(rest))
  }

  /** Unloading keeps the set equal to the union of the remaining sources. */
  lemma UnloadKeepsUnion(t: Table, path: string)
    requires Consistent(t)
    ensures Consistent(Unloaded(t, path))
  {
    if path in t.sources {
      var rest := t.sources - {path};
      var vec := t.sources[path];
      forall c | c in Union(rest) ensures c in Union(t.sources) {
        var q, d :| q in rest && q in rest.Keys && d in rest[q] && d == c;
        assert q in t.sources && d in t.sources[q];
      }
      forall c | c in Union(t.sources) && c !in Elems(vec) ensures c in Union(rest) {
        var q, d :| q in t.sources && q in t.sources.Keys && d in t.sources[q] && d == c;
        assert q != path;
        assert q in rest && d in rest[q];
      }
    }
  }

  /** A code another source also lists survives the unload; a code only the
      unloaded source listed is gone. */
  lemma UnloadKeepsSharedCodes(t: Table, path: string, c: int)
    requires Consistent(t) && path in t.sources
    ensures c in Unloaded(t, path).keys <==> exists q :: q in t.sources && q != path && c in t.sources[q]
  {
    var r := Unloaded(t, path);
    UnloadKeepsUnion(t, path);
    if c in r.keys {
      var q :| q in r.sources && c in r.sources[q];
      assert q in t.sources && q != path && c in t.sources[q];
    }
    if exists q :: q in t.sources && q != path && c in t.sources[q] {
      var q :| q in t.sources && q != path && c in t.sources[q];
      assert q in r.sources && c in r.sources[q];
    }
  }

  /** The CSV column read with `stoi`: the non-negative codes up to the first
      cell that fails, and whether every cell was read. */
  datatype Parsed = Parsed(codes: seq<int>, complete: bool)

  function ParseCodes(cells: seq<string>): Parsed
    decreases |cells|
  {
    if cells == [] then Parsed([], true)
    else match Stoi(cells[0])
      case Err(_) => Parsed([], false)
      case Ok(v) =>
        var rest := ParseCodes(cells[1..]);
        Parsed((if v >= 0 then [v] else []) + rest.codes, rest.complete)
  }

  /** The column is read completely exactly when every cell is an `int`; the
      codes kept are non-negative values of cells, and when the column is
      complete they are all of them. */
  lemma {:induction false} ParseCodesSpec(cells: seq<string>)
    ensures ParseCodes(cells).complete <==> forall i :: 0 <= i < |cells| ==> Stoi(cells[i]).Ok?
    ensures forall c :: c in ParseCodes(cells).codes ==>
      c >= 0 && exists i :: 0 <= i < |cells| && Stoi(cells[i]) == Ok(c)
    ensures ParseCodes(cells).complete ==> forall i, c :: 0 <= i < |cells| && Stoi(cells[i]) == Ok(c) && c >= 0 ==>
      c in ParseCodes(cells).codes
    decreases |cells|
  {
    if cells != [] {
      ParseCodesSpec(cells[1..]);
      var p := ParseCodes(cells);
      match Stoi(cells[0])
      case Err(_) =>
      case Ok(v) =>
        var rest := ParseCodes(cells[1..]);
        forall i | 1 <= i < |cells| ensures Stoi(cells[i]) == Stoi(cells[1..][i - 1]) {
        }
        forall c | c in p.codes ensures c >= 0 && exists i :: 0 <= i < |cells| && Stoi(cells[i]) == Ok(c) {
          if c !in rest.codes {
            assert Stoi(cells[0]) == Ok(c);
          } else {
            var j :| 0 <= j < |cells[1..]| && Stoi(cells[1..][j]) == Ok(c);
            assert Stoi(cells[j + 1]) == Ok(c);
          }
        }
    }
  }

  function Join(codes: seq<int>, p: Parsed): Parsed {
    Parsed(codes + p.codes, p.complete)
  }

  /** One cell of the column, read from the front. */
  lemma ParseCodesStep(cs: seq<string>, i: nat, codes: seq<int>)
    requires i < |cs|
    ensures Stoi(cs[i]).Err? ==> Join(codes, ParseCodes(cs[i..])) == Parsed(codes, false)
    ensures Stoi(cs[i]).Ok? && Stoi(cs[i]).value >= 0 ==>
      Join(codes, ParseCodes(cs[i..])) == Join(codes + [Stoi(cs[i]).value], ParseCodes(cs[i + 1..]))
    ensures Stoi(cs[i]).Ok? && Stoi(cs[i]).value < 0 ==>
      Join(codes, ParseCodes(cs[i..])) == Join(codes, ParseCodes(cs[i + 1..]))
  {
    assert cs[i..][0] == cs[i] && cs[i..][1..] == cs[i + 1..];
    assert codes + [] == codes;
  }

  /** `loadPassthrough(path)` with the column as read (None: the CSV reader
      failed): the path is unloaded first; then the codes are inserted one by
      one, and the path is recorded only when every cell was read. */
  function Loaded(t: Table, path: string, cells: Option<seq<string>>): Table {
    var u := Unloaded(t, path);
    match cells
    case None => u
    case Some(cs) =>
      var p := ParseCodes(cs);
      if p.complete then Table(u.sources[path := p.codes], u.keys + Elems(p.codes))
      else Table(u.sources, u.keys + Elems(p.codes))
  }

  /** Recording a path's codes in a table without it adds exactly those
      codes to the union. */
  lemma UnionRecord(sources: map<string, seq<int>>, path: string, codes: seq<int>)
    requires path !in sources
    ensures Union(sources[path := codes]) == Union(sources) + Elems(codes)
  {
    var m := sources[path := codes];
    assert m.Keys == sources.Keys + {path};
    UnionOverAgree(m, sources, sources.Keys);
    UnionOverAdd(m, sources.Keys, path);
  }

  /** A load that reads every cell records exactly the parsed codes for the
      path and keeps the set equal to the union of the sources. */
  lemma LoadKeepsUnion(t: Table, path: string, cs: seq<string>)
    requires Consistent(t) && ParseCodes(cs).complete
    ensures var r := Loaded(t, path, Some(cs));
      && Consistent(r)
      && r.sources == t.sources[path := ParseCodes(cs).codes]
  {
    var u := Unloaded(t, path);
    UnloadKeepsUnion(t, path);
    var codes := ParseCodes(cs).codes;
    UnionRecord(u.sources, path, codes);
    assert u.sources[path := codes] == t.sources[path := codes];
  }

  /** A CSV failure drops the path's source, keeps every other source, and
      keeps the set equal to the union of the sources. */
  lemma LoadCsvErrorUnloads(t: Table, path: string)
    requires Consistent(t)
    ensures var r := Loaded(t, path, None);
      && Consistent(r)
      && r.sources == t.sources - {path}
  {
    UnloadKeepsUnion(t, path);
    if path !in t.sources {
      assert t.sources - {path} == t.sources;
    }
  }

  /** A column whose first failing cell is at k reads the codes of the cells
      before it and nothing after. */
  lemma {:induction false} ParseCodesPrefix(cells: seq<string>, k: nat)
    requires k < |cells| && Stoi(cells[k]).Err?
    requires forall i :: 0 <= i < k ==> Stoi(cells[i]).Ok?
    ensures !ParseCodes(cells).complete
    ensures ParseCodes(cells).codes == ParseCodes(cells[..k]).codes
    ensures ParseCodes(cells[..k]).complete
    decreases k
  {
    if k > 0 {
      assert cells[..k][1..] == cells[1..][..k - 1];
      assert cells[..k][0] == cells[0];
      forall i | 0 <= i < k - 1 ensures Stoi(cells[1..][i]).Ok? {
        assert cells[1..][i] == cells[i + 1];
      }
      ParseCodesPrefix(cells[1..], k - 1);
    }
  }

  /** A column that stops at its first failing cell k keeps exactly the
      non-negative codes of the cells before k. */
  lemma ParseCodesStopsAtFailure(cells: seq<string>, k: nat)
    requires k < |cells| && Stoi(cells[k]).Err?
    requires forall i :: 0 <= i < k ==> Stoi(cells[i]).Ok?
    ensures !ParseCodes(cells).complete
    ensures forall c :: c in ParseCodes(cells).codes <==>
      exists i :: 0 <= i < k && Stoi(cells[i]) == Ok(c) && c >= 0
  {
    ParseCodesPrefix(cells, k);
    var pre := cells[..k];
    ParseCodesSpec(pre);
    forall c ensures c in ParseCodes(cells).codes <==> exists i :: 0 <= i < k && Stoi(cells[i]) == Ok(c) && c >= 0 {
      if c in ParseCodes(cells).codes {
        var i :| 0 <= i < |pre| && Stoi(pre[i]) == Ok(c);
        assert pre[i] == cells[i];
      }
      if exists i :: 0 <= i < k && Stoi(cells[i]) == Ok(c) && c >= 0 {
        var i :| 0 <= i < k && Stoi(cells[i]) == Ok(c) && c >= 0;
        assert pre[i] == cells[i];
      }
    }
  }

  /** A cell k that fails `stoi` leaves the path unloaded, yet the set keeps
      the non-negative codes of the cells before k, and only those are added. */
  lemma LoadFailureKeepsPartialCodes(t: Table, path: string, cs: seq<string>, k: nat)
    requires k < |cs| && Stoi(cs[k]).Err?
    requires forall i :: 0 <= i < k ==> Stoi(cs[i]).Ok?
    ensures var r := Loaded(t, path, Some(cs));
      && path !in r.sources
      && forall c :: c in r.keys <==>
           c in Unloaded(t, path).keys || exists i :: 0 <= i < k && Stoi(cs[i]) == Ok(c) && c >= 0
  {
    ParseCodesStopsAtFailure(cs, k);
  }

  /** From an empty table, the column `5, x` leaves 5 in the set with no
      source listing it: the set is no longer the union of the sources. */
  lemma LoadFailureBreaksUnion()
    ensures var t := Loaded(Table(map[], {}), "keys.csv", Some(["5", "x"]));
      Consistent(Table(map[], {})) && !Consistent(t)
  {
    StoiDecimalRoundTrip(5);
    assert DecimalText(5) == "5";
    StoiRejects("", "", "x");
    assert "" + "" + "x" == "x";
    assert ParseCodes(["5", "x"][1..]) == Parsed([], false) by {
      assert ["5", "x"][1..] == ["x"];
    }
    var t := Loaded(Table(map[], {}), "keys.csv", Some(["5", "x"]));
    assert Elems([5]) == {5} by {
      assert 5 in [5];
    }
    assert t.keys == {5};
  }

  /** The evidently intended load: a failing cell adds nothing, so the path
      is simply unloaded. */
  function LoadedAtomic(t: Table, path: string, cells: Option<seq<string>>): Table {
    var u := Unloaded(t, path);
    match cells
    case None => u
    case Some(cs) =>
      var p := ParseCodes(cs);
      if p.complete then Table(u.sources[path := p.codes], u.keys + Elems(p.codes)) else u
  }

  /** The atomic load keeps the set equal to the union of the sources on
      every input. */
  lemma LoadAtomicKeepsUnion(t: Table, path: string, cells: Option<seq<string>>)
    requires Consistent(t)
    ensures Consistent(LoadedAtomic(t, path, cells))
  {
    UnloadKeepsUnion(t, path);
    if cells.Some? && ParseCodes(cells.value).complete {
      LoadKeepsUnion(t, path, cells.value);
    }
  }

  // ---------------------------------------------------------------------------
  // loadPassthrough(FSEvent*) and the event dispatch of run()

  const PermBits: bv32 := 0x1FF   // S_IRWXU | S_IRWXG | S_IRWXO, octal 0777
  const Mode644: bv32 := 0x1A4    // octal 0644

  /** The permission gate: rw-r--r-- and owned by the daemon's user. */
  function PermissionOk(mode: bv32, uid: int, daemonUid: int): bool {
    mode & PermBits == Mode644 && uid == daemonUid
  }

  /** Bit by bit: owner read and write, group read and others read set, and
      every other permission bit clear, owned by the daemon's user. */
  lemma PermissionBits(mode: bv32, uid: int, daemonUid: int)
    ensures PermissionOk(mode, uid, daemonUid) <==>
      && uid == daemonUid
      && mode & 0x100 != 0 && mode & 0x80 != 0 && mode & 0x40 == 0
      && mode & 0x20 != 0 && mode & 0x10 == 0 && mode & 0x8 == 0
      && mode & 0x4 != 0 && mode & 0x2 == 0 && mode & 0x1 == 0
  {
  }

  /** The file type, setuid, setgid and sticky bits do not matter. */
  lemma PermissionIgnoresHighBits(mode: bv32, high: bv32, uid: int, daemonUid: int)
    ensures PermissionOk((high & !PermBits) | (mode & PermBits), uid, daemonUid) == PermissionOk(mode, uid, daemonUid)
  {
  }

  const InModify: bv32 := 0x2
  const InCreate: bv32 := 0x100
  const InDeleteSelf: bv32 := 0x400

  datatype FsAction = UnloadSource | LoadSource | Ignore

  /** The event dispatch of `run()`. */
  function Dispatch(mask: bv32): (a: FsAction)
    ensures a == UnloadSource <==> mask & InDeleteSelf != 0
    ensures a == LoadSource <==> mask & InDeleteSelf == 0 && (mask & InCreate != 0 || mask & InModify != 0)
  {
    if mask & InDeleteSelf != 0 then UnloadSource
    else if mask & (InCreate | InModify) != 0 then LoadSource
    else Ignore
  }

  /** Deleting takes priority over creating and modifying; an event with none
      of the three bits does nothing. */
  lemma DispatchPriority(mask: bv32)
    ensures Dispatch(mask | InDeleteSelf) == UnloadSource
    ensures mask & (InDeleteSelf | InCreate | InModify) == 0 ==> Dispatch(mask) == Ignore
  {
  }

  /** A watched file's event: its path and mask, the mode and owner `stat`
      reported, and the key_code column the CSV reader would return. */
  datatype FsEvent = FsEvent(path: string, mask: bv32, mode: bv32, uid: int, cells: Option<seq<string>>)

  function EventStep(t: Table, ev: FsEvent, daemonUid: int): Table {
    match Dispatch(ev.mask)
    case UnloadSource => Unloaded(t, ev.path)
    case LoadSource => GatedLoad(t, ev, daemonUid)
    case Ignore => t
  }

  function AfterEvents(t: Table, events: seq<FsEvent>, daemonUid: int): Table
    decreases |events|
  {
    if events == [] then t else AfterEvents(EventStep(t, events[0], daemonUid), events[1..], daemonUid)
  }

  predicate ReadsCompletely(ev: FsEvent) {
    ev.cells.Some? ==> ParseCodes(ev.cells.value).complete
  }

  /** While every CSV column loaded reads completely, the events keep the set
      equal to the union of the sources. */
  lemma {:induction false} EventsKeepUnion(t: Table, events: seq<FsEvent>, daemonUid: int)
    requires Consistent(t)
    requires forall i :: 0 <= i < |events| ==> ReadsCompletely(events[i])
    ensures Consistent(AfterEvents(t, events, daemonUid))
    decreases |events|
  {
    if events != [] {
      var ev := events[0];
      assert ReadsCompletely(ev);
      UnloadKeepsUnion(t, ev.path);
      if ev.cells.Some? {
        LoadKeepsUnion(t, ev.path, ev.cells.value);
      }
      assert forall i :: 0 <= i < |events[1..]| ==> ReadsCompletely(events[1..][i]) by {
        forall i | 0 <= i < |events[1..]| ensures ReadsCompletely(events[1..][i]) {
          assert events[1..][i] == events[i + 1];
        }
      }
      EventsKeepUnion(EventStep(t, ev, daemonUid), events[1..], daemonUid);
    }
  }

  /** `loadPassthrough(FSEvent*)`: the load, behind the permission gate. */
  function GatedLoad(t: Table, ev: FsEvent, daemonUid: int): Table {
    if PermissionOk(ev.mode, ev.uid, daemonUid) then Loaded(t, ev.path, ev.cells) else t
  }

  /** `initPassthrough`: every file already in the watched directory goes
      through the gated load, in order. */
  function AfterInit(t: Table, files: seq<FsEvent>, daemonUid: int): Table
    decreases |files|
  {
    if files == [] then t else AfterInit(GatedLoad(t, files[0], daemonUid), files[1..], daemonUid)
  }

  /** While every column loaded reads completely, start-up loading keeps the
      set equal to the union of the sources, and a file the gate refuses
      leaves no source behind. */
  lemma {:induction false} InitKeepsUnion(t: Table, files: seq<FsEvent>, daemonUid: int)
    requires Consistent(t)
    requires forall i :: 0 <= i < |files| ==> ReadsCompletely(files[i])
    ensures Consistent(AfterInit(t, files, daemonUid))
    ensures forall p :: p in AfterInit(t, files, daemonUid).sources ==>
      p in t.sources || exists i :: 0 <= i < |files| && files[i].path == p && PermissionOk(files[i].mode, files[i].uid, daemonUid)
    decreases |files|
  {
    if files != [] {
      var ev := files[0];
      assert ReadsCompletely(ev);
      var t' := GatedLoad(t, ev, daemonUid);
      if PermissionOk(ev.mode, ev.uid, daemonUid) {
        UnloadKeepsUnion(t, ev.path);
        if ev.cells.Some? {
          LoadKeepsUnion(t, ev.path, ev.cells.value);
        }
      }
      assert forall p :: p in t'.sources ==> p in t.sources || (p == ev.path && PermissionOk(ev.mode, ev.uid, daemonUid));
      forall i | 0 <= i < |files[1..]| ensures ReadsCompletely(files[1..][i]) {
        assert files[1..][i] == files[i + 1];
      }
      InitKeepsUnion(t', files[1..], daemonUid);
      forall p | p in AfterInit(t, files, daemonUid).sources
        ensures p in t.sources || exists i :: 0 <= i < |files| && files[i].path == p && PermissionOk(files[i].mode, files[i].uid, daemonUid)
      {
        if p !in t'.sources {
          var i :| 0 <= i < |files[1..]| && files[1..][i].path == p && PermissionOk(files[1..][i].mode, files[1..][i].uid, daemonUid);
          assert files[i + 1] == files[1..][i];
        } else if p !in t.sources {
          assert files[0].path == p;
        }
      }
    }
  }

  // ---------------------------------------------------------------------------
  // Key routing and the consecutive socket-error counter of run()

  const MaxErrors: int := 10

  datatype KeyOutcome = Forwarded | ReEmitted | Aborted

  /** One key of `run()`: a passthrough code goes to the macro daemon; a
      successful exchange resets the counter; a failed one re-emits the key
      unless `errors++ > MAX_ERRORS` aborts. Any other code is re-emitted. */
  function KeyStep(keys: set<int>, errors: int, code: int, exchangeOk: bool): (int, KeyOutcome) {
    if code !in keys then (errors, ReEmitted)
    else if exchangeOk then (0, Forwarded)
    else if errors > MaxErrors then (errors + 1, Aborted)
    else (errors + 1, ReEmitted)
  }

  /** Only passthrough codes reach the macro daemon; other codes leave the
      counter alone; a success resets it; a failure re-emits or aborts. */
  lemma KeyStepRouting(keys: set<int>, errors: int, code: int, exchangeOk: bool)
    ensures var (e, o) := KeyStep(keys, errors, code, exchangeOk);
      && (o == Forwarded <==> code in keys && exchangeOk)
      && (code !in keys ==> e == errors && o == ReEmitted)
      && (code in keys && exchangeOk ==> e == 0)
      && (code in keys && !exchangeOk ==> e == errors + 1 && o != Forwarded)
  {
  }

  /** The evidently intended counter: abort on the MAX_ERRORS-th consecutive
      failure. */
  function KeyStepFixed(keys: set<int>, errors: int, code: int, exchangeOk: bool): (int, KeyOutcome) {
    if code !in keys then (errors, ReEmitted)
    else if exchangeOk then (0, Forwarded)
    else if errors + 1 >= MaxErrors then (errors + 1, Aborted)
    else (errors + 1, ReEmitted)
  }

  /** Whether n consecutive failed exchanges of a passthrough key, starting
      from the counter value `errors`, abort the daemon. */
  function AbortsWithin(errors: int, n: nat, fixed: bool): bool
    decreases n
  {
    if n == 0 then false
    else
      var (e, o) := if fixed then KeyStepFixed({0}, errors, 0, false) else KeyStep({0}, errors, 0, false);
      o == Aborted || AbortsWithin(e, n - 1, fixed)
  }

  lemma {:induction false} AbortsWithinFrom(errors: nat, n: nat)
    requires errors <= MaxErrors + 1
    ensures AbortsWithin(errors, n, false) <==> errors + n >= MaxErrors + 2
    decreases n
  {
    if n > 0 && errors <= MaxErrors {
      AbortsWithinFrom(errors + 1, n - 1);
    }
  }

  /** As written, the daemon aborts on the 12th consecutive socket error. */
  lemma AbortsOnTwelfthError(n: nat)
    ensures AbortsWithin(0, n, false) <==> n >= 12
  {
    AbortsWithinFrom(0, n);
  }

  lemma {:induction false} AbortsWithinFixedFrom(errors: nat, n: nat)
    requires errors < MaxErrors
    ensures AbortsWithin(errors, n, true) <==> errors + n >= MaxErrors
    decreases n
  {
    if n > 0 && errors + 1 < MaxErrors {
      AbortsWithinFixedFrom(errors + 1, n - 1);
    }
  }

  /** The intended counter aborts on the 10th consecutive socket error. */
  lemma AbortsOnTenthError(n: nat)
    ensures AbortsWithin(0, n, true) <==> n >= 10
  {
    AbortsWithinFixedFrom(0, n);
  }

  /** One iteration of `run()`: the pending file-system events, then one key
      with the outcome of its exchange with the macro daemon (ignored unless
      the key is a passthrough key). */
  datatype Tick = Tick(events: seq<FsEvent>, code: int, exchangeOk: bool)

  datatype Trace = Trace(table: Table, outcomes: seq<KeyOutcome>)

  /** The loop of `run()` from a table and a counter value; an abort ends it. */
  function RunFrom(t: Table, errors: int, ticks: seq<Tick>, daemonUid: int): Trace
    decreases |ticks|
  {
    if ticks == [] then Trace(t, [])
    else
      var t' := AfterEvents(t, ticks[0].events, daemonUid);
      var (e, o) := KeyStep(t'.keys, errors, ticks[0].code, ticks[0].exchangeOk);
      if o == Aborted then Trace(t', [Aborted])
      else
        var rest := RunFrom(t', e, ticks[1..], daemonUid);
        Trace(rest.table, [o] + rest.outcomes)
  }

  /** One outcome per key until an abort, which only the last can be. */
  lemma {:induction false} RunFromShape(t: Table, errors: int, ticks: seq<Tick>, daemonUid: int)
    ensures var r := RunFrom(t, errors, ticks, daemonUid);
      && |r.outcomes| <= |ticks|
      && (|r.outcomes| < |ticks| ==> r.outcomes != [] && r.outcomes[|r.outcomes| - 1] == Aborted)
      && (forall k :: 0 <= k < |r.outcomes| - 1 ==> r.outcomes[k] != Aborted)
    decreases |ticks|
  {
    if ticks != [] {
      var t' := AfterEvents(t, ticks[0].events, daemonUid);
      var (e, o) := KeyStep(t'.keys, errors, ticks[0].code, ticks[0].exchangeOk);
      if o != Aborted {
        RunFromShape(t', e, ticks[1..], daemonUid);
        var rest := RunFrom(t', e, ticks[1..], daemonUid);
        assert forall k :: 1 <= k < |rest.outcomes| + 1 ==> ([o] + rest.outcomes)[k] == rest.outcomes[k - 1];
      }
    }
  }

  class Daemon {
    var keySources: map<string, seq<int>>
    var passthroughKeys: set<int>

    function State(): Table
      reads this
    {
      Table(keySources, passthroughKeys)
    }

    constructor ()
      ensures State() == Table(map[], {}) && Consistent(State())
    {
      keySources := map[];
      passthroughKeys := {};
    }

    /** `unloadPassthrough`. */
    method Unload(path: string)
      modifies this
      ensures State() == Unloaded(old(State()), path)
    {
      if path !in keySources {
        return;
      }
      var vec := keySources[path];
      var i := 0;
      while i < |vec|
        invariant 0 <= i <= |vec|
        invariant keySources == old(keySources)
        invariant passthroughKeys == old(passthroughKeys) - Elems(vec[..i])
      {
        ElemsSnoc(vec[..i], vec[i]);
        assert vec[..i + 1] == vec[..i] + [vec[i]];
        passthroughKeys := passthroughKeys - {vec[i]};
        i := i + 1;
      }
      assert vec[..i] == vec;
      keySources := keySources - {path};
      ghost var base := passthroughKeys;
      var todo := keySources.Keys;
      while todo != {}
        invariant todo <= keySources.Keys
        invariant keySources == old(keySources) - {path}
        invariant passthroughKeys == base + UnionOver(keySources, keySources.Keys - todo)
        decreases todo
      {
        var p :| p in todo;
        var codes := keySources[p];
        ghost var before := passthroughKeys;
        var j := 0;
        while j < |codes|
          invariant 0 <= j <= |codes|
          invariant keySources == old(keySources) - {path}
          invariant passthroughKeys == before + Elems(codes[..j])
        {
          ElemsSnoc(codes[..j], codes[j]);
          assert codes[..j + 1] == codes[..j] + [codes[j]];
          passthroughKeys := passthroughKeys + {codes[j]};
          j := j + 1;
        }
        assert codes[..j] == codes;
        UnionOverAdd(keySources, keySources.Keys - todo, p);
        assert (keySources.Keys - todo) + {p} == keySources.Keys - (todo - {p});
        todo := todo - {p};
      }
      assert keySources.Keys - {} == keySources.Keys;
    }

    /** `loadPassthrough(path)`, the column given as read (None: the CSV
        reader failed). */
    method Load(path: string, cells: Option<seq<string>>)
      modifies this
      ensures State() == Loaded(old(State()), path, cells)
    {
      Unload(path);
      if cells.None? {
        return;
      }
      var codes, complete := InsertCodes(cells.value);
      if complete {
        keySources := keySources[path := codes];
      }
    }

    /** The `stoi` loop of `loadPassthrough`: inserts each non-negative code
        until a cell fails; reports the codes and whether every cell was read. */
    method InsertCodes(cs: seq<string>) returns (codes: seq<int>, complete: bool)
      modifies this
      ensures Parsed(codes, complete) == ParseCodes(cs)
      ensures keySources == old(keySources)
      ensures passthroughKeys == old(passthroughKeys) + Elems(codes)
    {
      codes := [];
      var i := 0;
      assert cs[0..] == cs && [] + ParseCodes(cs).codes == ParseCodes(cs).codes;
      while i < |cs|
        invariant 0 <= i <= |cs|
        invariant keySources == old(keySources)
        invariant passthroughKeys == old(passthroughKeys) + Elems(codes)
        invariant ParseCodes(cs) == Join(codes, ParseCodes(cs[i..]))
      {
        ParseCodesStep(cs, i, codes);
        var v := Stoi(cs[i]);
        if v.Err? {
          return codes, false;
        }
        if v.value >= 0 {
          ElemsSnoc(codes, v.value);
          passthroughKeys := passthroughKeys + {v.value};
          codes := codes + [v.value];
        }
        i := i + 1;
      }
      assert cs[i..] == [] && codes + [] == codes;
      complete := true;
    }

    /** `loadPassthrough(FSEvent*)`: loads only through the permission gate. */
    method LoadEvent(ev: FsEvent, daemonUid: int)
      modifies this
      ensures State() == GatedLoad(old(State()), ev, daemonUid)
    {
      if PermissionOk(ev.mode, ev.uid, daemonUid) {
        Load(ev.path, ev.cells);
      }
    }

    /** `initPassthrough`, over the files `addFrom` reported. */
    method InitPassthrough(files: seq<FsEvent>, daemonUid: int)
      modifies this
      ensures State() == AfterInit(old(State()), files, daemonUid)
    {
      var i := 0;
      assert files[0..] == files;
      while i < |files|
        invariant 0 <= i <= |files|
        invariant AfterInit(old(State()), files, daemonUid) == AfterInit(State(), files[i..], daemonUid)
      {
        assert files[i..][0] == files[i] && files[i..][1..] == files[i + 1..];
        LoadEvent(files[i], daemonUid);
        i := i + 1;
      }
    }

    /** The event loop of one `run()` iteration. */
    method HandleEvents(events: seq<FsEvent>, daemonUid: int)
      modifies this
      ensures State() == AfterEvents(old(State()), events, daemonUid)
    {
      var i := 0;
      assert events[0..] == events;
      while i < |events|
        invariant 0 <= i <= |events|
        invariant AfterEvents(old(State()), events, daemonUid) == AfterEvents(State(), events[i..], daemonUid)
      {
        assert events[i..][0] == events[i] && events[i..][1..] == events[i + 1..];
        var ev := events[i];
        var action := Dispatch(ev.mask);
        if action == UnloadSource {
          Unload(ev.path);
        } else if action == LoadSource {
          LoadEvent(ev, daemonUid);
        }
        i := i + 1;
      }
    }

    /** The main loop of `run()` over the given iterations, with its local
        error counter; returns what happened to each key. */
    method Run(ticks: seq<Tick>, daemonUid: int) returns (outcomes: seq<KeyOutcome>)
      modifies this
      ensures Trace(State(), outcomes) == RunFrom(old(State()), 0, ticks, daemonUid)
    {
      var errors := 0;
      outcomes := [];
      var i := 0;
      assert ticks[0..] == ticks;
      while i < |ticks|
        invariant 0 <= i <= |ticks|
        invariant var r := RunFrom(State(), errors, ticks[i..], daemonUid);
          RunFrom(old(State()), 0, ticks, daemonUid) == Trace(r.table, outcomes + r.outcomes)
      {
        var tick := ticks[i];
        assert ticks[i..][0] == tick && ticks[i..][1..] == ticks[i + 1..];
        HandleEvents(tick.events, daemonUid);
        var outcome: KeyOutcome;
        if tick.code in passthroughKeys {
          if tick.exchangeOk {
            errors := 0;
            outcome := Forwarded;
          } else {
            var tooMany := errors > MaxErrors;
            errors := errors + 1;
            if tooMany {
              outcomes := outcomes + [Aborted];
              return;
            }
            outcome := ReEmitted;
          }
        } else {
          outcome := ReEmitted;
        }
        assert outcomes + ([outcome] + RunFrom(State(), errors, ticks[i + 1..], daemonUid).outcomes)
            == (outcomes + [outcome]) + RunFrom(State(), errors, ticks[i + 1..], daemonUid).outcomes;
        outcomes := outcomes + [outcome];
        i := i + 1;
      }
      assert outcomes + [] == outcomes;
    }
  }
}
