/** `LogRetriever.update`: decode the journal lines, sort them by monotonic
    timestamp, collapse consecutive repeats of one message into a single
    record with a DUP count, deliver only what lies above the high-watermark,
    and keep the last five delivered records in a FIFO history. */
module LogHistory {
  import opened Common
  import opened LogRecords

  /** `self.max_logs`. */
  const MaxLogs: nat := 5
  const TimestampKey := "__MONOTONIC_TIMESTAMP"
  const DupKey := "DUP"

  /** One line of the script's output after `json.loads`. */
  datatype Line = Json(fields: Record) | Malformed

  /** What a successful `update` returns: the new records and how many old
      ones were pushed out of the history. */
  datatype Delivery = Delivery(added: seq<Record>, removed: nat)

  predicate Timestamped(r: Record) {
    TimestampKey in r && r[TimestampKey].I?
  }

  /** The monotonic timestamp. Only read on records known to carry one: a
      batch with a missing or non-integer timestamp is rejected before the
      sort, so the fallback 0 is never observed. */
  function Ts(r: Record): int {
    if Timestamped(r) then r[TimestampKey].i else 0
  }

  predicate AllTimestamped(s: seq<Record>) {
    forall r :: r in s ==> Timestamped(r)
  }

  predicate AllMessages(s: seq<Record>) {
    forall r :: r in s ==> MessageKey in r
  }

  /** Ascending by timestamp. */
  predicate Chronological(s: seq<Record>) {
    && AllTimestamped(s)
    && forall i, j :: 0 <= i < j < |s| ==> Ts(s[i]) <= Ts(s[j])
  }

  /** `xs` in front of a successful result; an error stays the error. */
  function Prefixed(xs: seq<Record>, r: Result<seq<Record>, LogError>): Result<seq<Record>, LogError> {
    match r
    case Err(e) => Err(e)
    case Ok(ys) => Ok(xs + ys)
  }

  // ---------------------------------------------------------------------------
  // Decoding: json.loads and mklog on every line, in order

  predicate LineFails(l: Line) {
    l.Malformed? || Normalise(l.fields).Err?
  }

  /** The records of all lines, or the error of the first line that fails. */
  function ParseAll(lines: seq<Line>): (r: Result<seq<Record>, LogError>)
    ensures r.Ok? ==> AllMessages(r.value)
    decreases |lines|
  {
    if lines == [] then Ok([])
    else
      var first := if lines[0].Malformed? then Err(MalformedLine) else Normalise(lines[0].fields);
      match first
      case Err(e) => Err(e)
      case Ok(rec) => Prefixed([rec], ParseAll(lines[1..]))
  }

  /** Decoding fails exactly when some line fails; when it succeeds the
      records are the normalised lines, one for one and in order. */
  lemma {:induction false} ParseAllSpec(lines: seq<Line>)
    ensures ParseAll(lines).Err? <==> exists i :: 0 <= i < |lines| && LineFails(lines[i])
    ensures ParseAll(lines).Ok? ==>
      |ParseAll(lines).value| == |lines| &&
      forall i :: 0 <= i < |lines| ==> Normalise(lines[i].fields) == Ok(ParseAll(lines).value[i])
    decreases |lines|
  {
    if lines != [] {
      ParseAllSpec(lines[1..]);
      assert forall i :: 1 <= i < |lines| ==> lines[i] == lines[1..][i - 1];
      if !LineFails(lines[0]) && ParseAll(lines[1..]).Err? {
        var i :| 0 <= i < |lines[1..]| && LineFails(lines[1..][i]);
        assert LineFails(lines[i + 1]);
      }
    }
  }

  // ---------------------------------------------------------------------------
  // sorted(objs, key=__MONOTONIC_TIMESTAMP): a stable sort

  /** Put x in front of the first element whose timestamp is not below its own. */
  function Insert(x: Record, s: seq<Record>): (r: seq<Record>)
    ensures multiset(r) == multiset(s) + multiset{x}
    ensures Timestamped(x) && AllTimestamped(s) ==> AllTimestamped(r)
    decreases |s|
  {
    if s == [] || Ts(x) <= Ts(s[0]) then [x] + s
    else
      assert s == [s[0]] + s[1..];
      [s[0]] + Insert(x, s[1..])
  }

  function SortByTs(s: seq<Record>): (r: seq<Record>)
    ensures multiset(r) == multiset(s)
    ensures AllTimestamped(s) ==> AllTimestamped(r)
    decreases |s|
  {
    if s == [] then []
    else
      assert s == [s[0]] + s[1..];
      Insert(s[0], SortByTs(s[1..]))
  }

  /** The records of s with timestamp t, in their order in s. */
  function WithTs(s: seq<Record>, t: int): seq<Record>
    decreases |s|
  {
    if s == [] then [] else (if Ts(s[0]) == t then [s[0]] else []) + WithTs(s[1..], t)
  }

  function Min(a: int, b: int): int { if a <= b then a else b }

  lemma {:induction false} InsertChronological(x: Record, s: seq<Record>)
    requires Timestamped(x) && Chronological(s)
    ensures Chronological(Insert(x, s))
    ensures forall i :: 0 <= i < |Insert(x, s)| ==>
      Ts(Insert(x, s)[i]) >= (if s == [] then Ts(x) else Min(Ts(x), Ts(s[0])))
    decreases |s|
  {
    if s == [] {
      assert Insert(x, s) == [x];
    } else if Ts(x) <= Ts(s[0]) {
      SuffixChronological(s, 0);
      assert s[0..] == s;
      ConsChronological(x, s);
    } else {
      SuffixChronological(s, 1);
      InsertChronological(x, s[1..]);
      var r := Insert(x, s[1..]);
      assert forall j :: 0 <= j < |r| ==> Ts(s[0]) <= Ts(r[j]);
      ConsChronological(s[0], r);
    }
  }

  /** Inserting keeps the relative order of equal timestamps: x lands in
      front of every record with its own timestamp. */
  lemma {:induction false} InsertStable(x: Record, s: seq<Record>, t: int)
    requires Timestamped(x) && AllTimestamped(s)
    ensures WithTs(Insert(x, s), t) == WithTs([x] + s, t)
    decreases |s|
  {
    if s != [] && Ts(x) > Ts(s[0]) {
      InsertStable(x, s[1..], t);
      assert ([s[0]] + Insert(x, s[1..]))[1..] == Insert(x, s[1..]);
      assert ([x] + s[1..])[1..] == s[1..];
      assert ([x] + s)[1..] == s;
    }
  }

  /** The sort is the stable sort: ascending timestamps, the same records,
      and for every timestamp the records carrying it in their input order. */
  lemma {:induction false} SortByTsSpec(s: seq<Record>)
    requires AllTimestamped(s)
    ensures Chronological(SortByTs(s))
    ensures multiset(SortByTs(s)) == multiset(s)
    ensures forall t :: WithTs(SortByTs(s), t) == WithTs(s, t)
    decreases |s|
  {
    if s != [] {
      SortByTsSpec(s[1..]);
      InsertChronological(s[0], SortByTs(s[1..]));
      forall t ensures WithTs(SortByTs(s), t) == WithTs(s, t) {
        InsertStable(s[0], SortByTs(s[1..]), t);
        assert ([s[0]] + SortByTs(s[1..]))[1..] == SortByTs(s[1..]);
      }
    }
  }

  // ---------------------------------------------------------------------------
  // Collapsing repeats: the DUP count

  predicate IntDup(r: Record) {
    DupKey !in r || r[DupKey].I?
  }

  /** The duplicate count of a record, 1 when it has none (window.py:171). */
  function DupCount(r: Record): int
    requires IntDup(r)
  {
    if DupKey in r then r[DupKey].i else 1
  }

  /** A record as the history keeps it. */
  predicate Stored(r: Record) {
    MessageKey in r && Timestamped(r) && DupKey in r && r[DupKey].I?
  }

  /** Set DUP to the old count (1 when absent) plus k; nothing else changes. */
  function BumpDup(r: Record, k: nat): (b: Record)
    requires IntDup(r)
    ensures DupKey in b && b[DupKey].I? && DupCount(b) == DupCount(r) + k
  {
    r[DupKey := I(DupCount(r) + k)]
  }

  /** Bumping DUP leaves every other field alone, the message and the
      timestamp in particular. */
  lemma BumpDupKeeps(r: Record, k: nat)
    requires IntDup(r)
    ensures forall key :: key != DupKey ==> (key in BumpDup(r, k) <==> key in r)
    ensures forall key :: key != DupKey && key in r ==> BumpDup(r, k)[key] == r[key]
    ensures MessageKey in r ==> MessageKey in BumpDup(r, k) && BumpDup(r, k)[MessageKey] == r[MessageKey]
    ensures Timestamped(r) ==> Timestamped(BumpDup(r, k)) && Ts(BumpDup(r, k)) == Ts(r)
  {
    assert MessageKey != DupKey by { assert |MessageKey| != |DupKey|; }
    assert TimestampKey != DupKey by { assert |TimestampKey| != |DupKey|; }
  }

  /** Adding the absorbed count to a record's duplicate count
      (window.py:171, 175); a DUP that holds text makes the addition raise. */
  function Flush(r: Record, k: nat): Result<Record, LogError> {
    if IntDup(r) then Ok(BumpDup(r, k)) else Err(DupNotInteger)
  }

  /** The dedup loop of `update`, one object at a time: `last` is the record
      being accumulated, `skips` how many repeats of it were absorbed. */
  function Collapse(last: Option<Record>, skips: nat, objs: seq<Record>): Result<seq<Record>, LogError>
    requires last.Some? ==> MessageKey in last.value
    requires AllMessages(objs)
    decreases |objs|
  {
    if objs == [] then
      match last
      case None => Ok([])
      case Some(a) =>
        match Flush(a, skips)
        case Err(e) => Err(e)
        case Ok(f) => Ok([f])
    else if last.Some? && objs[0][MessageKey] == last.value[MessageKey] then
      Collapse(last, skips + 1, objs[1..])
    else
      match last
      case None => Collapse(Some(objs[0]), 0, objs[1..])
      case Some(a) =>
        match Flush(a, skips)
        case Err(e) => Err(e)
        case Ok(f) => Prefixed([f], Collapse(Some(objs[0]), 0, objs[1..]))
  }

  /** How many records at the front of objs carry message m. */
  function RunLength(m: Value, objs: seq<Record>): (n: nat)
    requires AllMessages(objs)
    ensures n <= |objs|
    ensures forall i :: 0 <= i < n ==> objs[i][MessageKey] == m
    ensures n < |objs| ==> objs[n][MessageKey] != m
    decreases |objs|
  {
    if objs == [] || objs[0][MessageKey] != m then 0 else 1 + RunLength(m, objs[1..])
  }

  /** Reference definition of the dedup: every maximal run of one message
      becomes its first record, with DUP raised by the length of the rest of
      the run. */
  function CollapseRuns(objs: seq<Record>): Result<seq<Record>, LogError>
    requires AllMessages(objs)
    decreases |objs|
  {
    if objs == [] then Ok([])
    else
      var k := RunLength(objs[0][MessageKey], objs[1..]);
      match Flush(objs[0], k)
      case Err(e) => Err(e)
      case Ok(f) => Prefixed([f], CollapseRuns(objs[1 + k..]))
  }

  /** The run-shaped result when record a, already holding j repeats, is
      carried into objs. */
  function CarryRun(a: Record, j: nat, objs: seq<Record>): Result<seq<Record>, LogError>
    requires MessageKey in a && AllMessages(objs)
  {
    var k := RunLength(a[MessageKey], objs);
    match Flush(a, j + k)
    case Err(e) => Err(e)
    case Ok(f) => Prefixed([f], CollapseRuns(objs[k..]))
  }

  lemma {:induction false} CollapseCarry(a: Record, j: nat, objs: seq<Record>)
    requires MessageKey in a && AllMessages(objs)
    ensures Collapse(Some(a), j, objs) == CarryRun(a, j, objs)
    decreases |objs|
  {
    if objs == [] {
      assert RunLength(a[MessageKey], objs) == 0;
      assert objs[0..] == [];
      if IntDup(a) {
        assert [BumpDup(a, j)] + [] == [BumpDup(a, j)];
      }
    } else if objs[0][MessageKey] == a[MessageKey] {
      CollapseCarry(a, j + 1, objs[1..]);
      var k := RunLength(a[MessageKey], objs[1..]);
      assert RunLength(a[MessageKey], objs) == k + 1;
      assert objs[1..][k..] == objs[1 + k..];
    } else {
      CollapseCarry(objs[0], 0, objs[1..]);
      assert RunLength(a[MessageKey], objs) == 0;
      assert objs[0..] == objs;
      var k := RunLength(objs[0][MessageKey], objs[1..]);
      assert objs[1..][k..] == objs[1 + k..];
    }
  }

  /** The loop and the run-shaped reference agree. */
  lemma CollapseIsRuns(objs: seq<Record>)
    requires AllMessages(objs)
    ensures Collapse(None, 0, objs) == CollapseRuns(objs)
  {
    if objs != [] {
      CollapseCarry(objs[0], 0, objs[1..]);
    }
  }

  /** With a carried record in front, the carry absorbs the leading repeats of
      its own message and the remainder is collapsed on its own. */
  lemma CollapseWithCarry(c: Record, objs: seq<Record>)
    requires MessageKey in c && IntDup(c) && AllMessages(objs)
    ensures var k := RunLength(c[MessageKey], objs);
      Collapse(Some(c), 0, objs) == Prefixed([BumpDup(c, k)], CollapseRuns(objs[k..]))
  {
    CollapseCarry(c, 0, objs);
  }

  /** Shape of the reference dedup: never two neighbours with one message,
      each output a bumped input record, the first output the first input. */
  lemma {:induction false} CollapseRunsShape(objs: seq<Record>)
    requires AllMessages(objs)
    ensures CollapseRuns(objs).Ok? ==>
      var outs := CollapseRuns(objs).value;
      && |outs| <= |objs|
      && (outs == [] <==> objs == [])
      && (outs != [] ==> outs[0] == BumpDup(objs[0], RunLength(objs[0][MessageKey], objs[1..])))
      && (forall r: Record :: r in outs ==> MessageKey in r && DupKey in r && r[DupKey].I?)
      && (forall i :: 0 < i < |outs| ==> outs[i - 1][MessageKey] != outs[i][MessageKey])
    decreases |objs|
  {
    if objs != [] && CollapseRuns(objs).Ok? {
      var k := RunLength(objs[0][MessageKey], objs[1..]);
      var rest := objs[1 + k..];
      CollapseRunsShape(rest);
      var f := BumpDup(objs[0], k);
      var outs := CollapseRuns(objs).value;
      assert outs == [f] + CollapseRuns(rest).value;
      if rest != [] {
        assert rest[0] == objs[1..][k];
      }
    }
  }

  lemma ConsChronological(f: Record, rs: seq<Record>)
    requires Timestamped(f) && Chronological(rs)
    requires forall i :: 0 <= i < |rs| ==> Ts(f) <= Ts(rs[i])
    ensures Chronological([f] + rs)
  {
    var s := [f] + rs;
    forall i, j | 0 <= i < j < |s| ensures Ts(s[i]) <= Ts(s[j]) {
      assert s[j] == rs[j - 1];
      if i > 0 { assert s[i] == rs[i - 1]; }
    }
  }

  /** A suffix of a chronological sequence is chronological and starts no
      earlier than the whole. */
  lemma SuffixChronological(s: seq<Record>, n: nat)
    requires Chronological(s) && 0 < |s| && n <= |s|
    ensures Chronological(s[n..])
    ensures forall i :: 0 <= i < |s[n..]| ==> Ts(s[0]) <= Ts(s[n..][i])
  {
    forall i, j | 0 <= i < j < |s[n..]| ensures Ts(s[n..][i]) <= Ts(s[n..][j]) {
      assert s[n..][i] == s[n + i] && s[n..][j] == s[n + j];
    }
    forall i | 0 <= i < |s[n..]| ensures Ts(s[0]) <= Ts(s[n..][i]) {
      assert s[n..][i] == s[n + i];
    }
  }

  /** Putting a stored record in front of stored records no earlier than it. */
  lemma ConsStored(f: Record, tail: seq<Record>, lo: int)
    requires Stored(f) && Ts(f) == lo
    requires Chronological(tail) && forall r :: r in tail ==> Stored(r)
    requires forall i :: 0 <= i < |tail| ==> lo <= Ts(tail[i])
    ensures Chronological([f] + tail)
    ensures forall r :: r in [f] + tail ==> Stored(r)
    ensures forall i :: 0 <= i < |[f] + tail| ==> lo <= Ts(([f] + tail)[i])
  {
    ConsChronological(f, tail);
  }

  lemma SuffixMessages(objs: seq<Record>, n: nat)
    requires AllMessages(objs) && n <= |objs|
    ensures AllMessages(objs[n..])
  {
    forall r | r in objs[n..] ensures MessageKey in r {
      var i :| 0 <= i < |objs[n..]| && objs[n..][i] == r;
      assert r == objs[n + i] && objs[n + i] in objs;
    }
  }

  /** One step of the reference dedup, unfolded. */
  lemma CollapseRunsStep(objs: seq<Record>)
    requires AllMessages(objs) && objs != [] && CollapseRuns(objs).Ok?
    ensures IntDup(objs[0])
    ensures var k := RunLength(objs[0][MessageKey], objs[1..]);
      && AllMessages(objs[1 + k..])
      && CollapseRuns(objs[1 + k..]).Ok?
      && CollapseRuns(objs).value == [BumpDup(objs[0], k)] + CollapseRuns(objs[1 + k..]).value
  {
    var k := RunLength(objs[0][MessageKey], objs[1..]);
    SuffixMessages(objs, 1 + k);
  }

  /** The reference dedup keeps ascending timestamps and never reports a
      timestamp below the first input's. */
  lemma {:induction false} CollapseRunsChronological(objs: seq<Record>)
    requires AllMessages(objs) && Chronological(objs)
    ensures CollapseRuns(objs).Ok? ==>
      var outs := CollapseRuns(objs).value;
      && Chronological(outs)
      && (forall r :: r in outs ==> Stored(r))
      && (forall i :: 0 <= i < |outs| ==> Ts(objs[0]) <= Ts(outs[i]))
    decreases |objs|
  {
    if objs != [] && CollapseRuns(objs).Ok? {
      CollapseRunsStep(objs);
      var k := RunLength(objs[0][MessageKey], objs[1..]);
      var rest := objs[1 + k..];
      SuffixChronological(objs, 1 + k);
      CollapseRunsChronological(rest);
      BumpDupKeeps(objs[0], k);
      var f := BumpDup(objs[0], k);
      ConsStored(f, CollapseRuns(rest).value, Ts(objs[0]));
    }
  }

  /** When no record carries a DUP yet, the DUP counts of the result add up
      to the number of input records: nothing is lost or counted twice. */
  function DupSum(s: seq<Record>): int
    requires forall r :: r in s ==> IntDup(r)
    decreases |s|
  {
    if s == [] then 0 else DupCount(s[0]) + DupSum(s[1..])
  }

  lemma {:induction false} CollapseRunsCountsEveryRecord(objs: seq<Record>)
    requires AllMessages(objs)
    requires forall r :: r in objs ==> DupKey !in r
    ensures CollapseRuns(objs).Ok?
    ensures forall r :: r in CollapseRuns(objs).value ==> IntDup(r)
    ensures DupSum(CollapseRuns(objs).value) == |objs|
    decreases |objs|
  {
    if objs != [] {
      var k := RunLength(objs[0][MessageKey], objs[1..]);
      var rest := objs[1 + k..];
      assert forall r :: r in rest ==> r in objs;
      CollapseRunsCountsEveryRecord(rest);
      var f := BumpDup(objs[0], k);
      assert CollapseRuns(objs).value == [f] + CollapseRuns(rest).value;
      assert ([f] + CollapseRuns(rest).value)[1..] == CollapseRuns(rest).value;
    }
  }

  /** The dedup fails exactly when a run's first record holds a DUP that is
      text; with integer DUPs everywhere it always succeeds. */
  lemma {:induction false} CollapseRunsSucceeds(objs: seq<Record>)
    requires AllMessages(objs)
    requires forall r :: r in objs ==> IntDup(r)
    ensures CollapseRuns(objs).Ok?
    decreases |objs|
  {
    if objs != [] {
      var k := RunLength(objs[0][MessageKey], objs[1..]);
      assert forall r :: r in objs[1 + k..] ==> r in objs;
      CollapseRunsSucceeds(objs[1 + k..]);
    }
  }

  /** The dedup over a concrete run: two records with one message and a third
      with another, none of them counted yet, become the first with DUP 2 and
      the third with DUP 1. */
  lemma CollapseRunsPair(a: Record, b: Record, c: Record)
    requires MessageKey in a && MessageKey in b && MessageKey in c
    requires DupKey !in a && DupKey !in c
    requires a[MessageKey] == b[MessageKey] != c[MessageKey]
    ensures CollapseRuns([a, b, c]) == Ok([a[DupKey := I(2)], c[DupKey := I(1)]])
  {
    var s := [a, b, c];
    var t := [c];
    assert t[1..] == [];
    assert RunLength(c[MessageKey], t[1..]) == 0;
    assert BumpDup(c, 0) == c[DupKey := I(1)];
    assert CollapseRuns(t[1..]) == Ok([]);
    assert Flush(t[0], 0) == Ok(c[DupKey := I(1)]);
    assert [c[DupKey := I(1)]] + [] == [c[DupKey := I(1)]];
    assert CollapseRuns(t) == Ok([c[DupKey := I(1)]]);
    assert BumpDup(a, 1) == a[DupKey := I(2)];
    assert s[1..] == [b, c] && s[1..][1..] == t;
    assert RunLength(a[MessageKey], s[1..]) == 1;
    assert s[1 + 1..] == t;
    assert Flush(s[0], 1) == Ok(a[DupKey := I(2)]);
    assert [a[DupKey := I(2)]] + [c[DupKey := I(1)]] == [a[DupKey := I(2)], c[DupKey := I(1)]];
  }

  // ---------------------------------------------------------------------------
  // The high-watermark filter and the bounded history

  /** The records strictly newer than the watermark, in order (window.py:179). */
  function Fresh(s: seq<Record>, wm: int): (r: seq<Record>)
    ensures forall x :: x in r ==> x in s && Ts(x) > wm
    ensures |r| <= |s|
    decreases |s|
  {
    if s == [] then [] else (if Ts(s[0]) > wm then [s[0]] else []) + Fresh(s[1..], wm)
  }

  /** The filter keeps every record above the watermark. */
  lemma {:induction false} FreshKeepsNewer(s: seq<Record>, wm: int)
    ensures forall x :: x in s && Ts(x) > wm ==> x in Fresh(s, wm)
    decreases |s|
  {
    if s != [] {
      FreshKeepsNewer(s[1..], wm);
      assert forall x :: x in s ==> x == s[0] || x in s[1..];
    }
  }

  /** The filter keeps ascending order and never goes below the first record. */
  lemma {:induction false} FreshChronological(s: seq<Record>, wm: int)
    requires Chronological(s)
    ensures Chronological(Fresh(s, wm))
    ensures s != [] ==> forall i :: 0 <= i < |Fresh(s, wm)| ==> Ts(s[0]) <= Ts(Fresh(s, wm)[i])
    decreases |s|
  {
    if s != [] {
      SuffixChronological(s, 1);
      FreshChronological(s[1..], wm);
      var f := Fresh(s[1..], wm);
      if s[1..] != [] {
        assert forall i :: 0 <= i < |f| ==> Ts(s[0]) <= Ts(f[i]);
      } else {
        assert f == [];
      }
      if Ts(s[0]) > wm {
        ConsChronological(s[0], f);
      } else {
        assert Fresh(s, wm) == f;
      }
    }
  }

  /** `append`: drop the oldest record when the history is full, then add. */
  function Pushed(logs: seq<Record>, r: Record): seq<Record> {
    (if |logs| >= MaxLogs then logs[1..] else logs) + [r]
  }

  /** The history after appending each record in turn, and the sum of what
      the appends returned. */
  function PushAll(logs: seq<Record>, rs: seq<Record>): (seq<Record>, nat)
    decreases |rs|
  {
    if rs == [] then (logs, 0)
    else
      var (l, n) := PushAll(logs, rs[..|rs| - 1]);
      (Pushed(l, rs[|rs| - 1]), n + if |l| >= MaxLogs then 1 else 0)
  }

  /** The history is a window: the last MaxLogs records of everything ever
      appended, and the count of pushed-out records is what falls before it. */
  lemma {:induction false} PushAllWindow(logs: seq<Record>, rs: seq<Record>)
    requires |logs| <= MaxLogs
    ensures var (kept, removed) := PushAll(logs, rs);
      var all := logs + rs;
      && |kept| == Min(MaxLogs, |all|)
      && kept == all[|all| - |kept|..]
      && removed == |all| - |kept|
    decreases |rs|
  {
    if rs != [] {
      var front := rs[..|rs| - 1];
      var x := rs[|rs| - 1];
      PushAllWindow(logs, front);
      var (l, n) := PushAll(logs, front);
      var all' := logs + front;
      var all := logs + rs;
      assert all == all' + [x];
      if |l| >= MaxLogs {
        assert l[1..] + [x] == all[|all| - MaxLogs..];
      } else {
        assert l == all';
      }
    }
  }

  // ---------------------------------------------------------------------------
  // One refresh of the history

  /** What `LogRetriever` keeps between refreshes: at most MaxLogs stored
      records in ascending time, the newest of them at the watermark. */
  predicate HistoryValid(logs: seq<Record>, wm: int) {
    && |logs| <= MaxLogs
    && (forall i :: 0 <= i < |logs| ==> Stored(logs[i]))
    && Chronological(logs)
    && (if logs == [] then wm == 0 else Ts(logs[|logs| - 1]) == wm)
  }

  function LastOf(logs: seq<Record>): (r: Option<Record>)
    ensures r.Some? <==> logs != []
    ensures r.Some? ==> r.value in logs
  {
    if logs == [] then None else Some(logs[|logs| - 1])
  }

  /** The history after the dedup has bumped, in place, the DUP of its newest
      record by the number of leading repeats of that record's message. */
  function CarryBumped(logs: seq<Record>, objs: seq<Record>): seq<Record>
    requires logs != [] ==> IntDup(logs[|logs| - 1]) && MessageKey in logs[|logs| - 1]
    requires AllMessages(objs)
  {
    if logs == [] then []
    else
      var c := logs[|logs| - 1];
      logs[..|logs| - 1] + [BumpDup(c, RunLength(c[MessageKey], objs))]
  }

  /** Decode every line, check the timestamps and sort: the batch the dedup
      runs on, in ascending time and every record with a MESSAGE. */
  function Batch(lines: seq<Line>): (r: Result<seq<Record>, LogError>)
    ensures r.Ok? ==> Chronological(r.value) && AllMessages(r.value)
  {
    match ParseAll(lines)
    case Err(e) => Err(e)
    case Ok(objs) =>
      if !AllTimestamped(objs) then Err(MissingTimestamp)
      else
        SortByTsSpec(objs);
        SortKeepsMessages(objs);
        Ok(SortByTs(objs))
  }

  datatype Outcome = Outcome(logs: seq<Record>, watermark: int, result: Result<Delivery, LogError>)

  lemma SortKeepsMessages(objs: seq<Record>)
    requires AllTimestamped(objs) && AllMessages(objs)
    ensures AllMessages(SortByTs(objs))
  {
    forall r | r in SortByTs(objs) ensures MessageKey in r {
      assert r in multiset(SortByTs(objs));
    }
  }

  /** What the dedup of a sorted batch yields against a valid history: stored
      records, and above the watermark they are in ascending time; the carried
      record itself never passes the filter. */
  lemma CollapseSorted(logs: seq<Record>, wm: int, sorted: seq<Record>)
    requires HistoryValid(logs, wm) && Chronological(sorted) && AllMessages(sorted)
    ensures Collapse(LastOf(logs), 0, sorted).Ok? ==>
      var outs := Collapse(LastOf(logs), 0, sorted).value;
      && AllTimestamped(outs)
      && (forall r :: r in outs ==> Stored(r))
      && Chronological(Fresh(outs, wm))
  {
    if Collapse(LastOf(logs), 0, sorted).Ok? {
      var outs := Collapse(LastOf(logs), 0, sorted).value;
      if logs == [] {
        CollapseIsRuns(sorted);
        CollapseRunsChronological(sorted);
        FreshChronological(outs, wm);
      } else {
        var c := logs[|logs| - 1];
        assert Stored(c);
        CollapseWithCarry(c, sorted);
        var k := RunLength(c[MessageKey], sorted);
        var tail := CollapseRuns(sorted[k..]).value;
        BumpDupKeeps(c, k);
        var f := BumpDup(c, k);
        assert outs == [f] + tail;
        assert forall r :: r in sorted[k..] ==> r in sorted;
        if sorted[k..] != [] {
          SuffixChronological(sorted, k);
          CollapseRunsChronological(sorted[k..]);
        } else {
          assert tail == [];
        }
        FreshChronological(tail, wm);
        assert outs[1..] == tail;
        assert Fresh(outs, wm) == Fresh(tail, wm);
      }
    }
  }

  /** `update` on the lines the script printed, as a function of the history
      and watermark before it: the new history, the new watermark, and what
      the call returns or the error it raises. */
  function Refresh(logs: seq<Record>, wm: int, lines: seq<Line>): Outcome
    requires HistoryValid(logs, wm)
  {
    match Batch(lines)
    case Err(e) => Outcome(logs, wm, Err(e))
    case Ok(sorted) =>
      var bumped := CarryBumped(logs, sorted);
      match Collapse(LastOf(logs), 0, sorted)
      case Err(e) => Outcome(bumped, wm, Err(e))
      case Ok(outs) => Deliver(bumped, wm, outs)
  }

  /** The dedup fails only on a DUP that holds text. */
  lemma {:induction false} CollapseErrorIsDup(last: Option<Record>, skips: nat, objs: seq<Record>)
    requires last.Some? ==> MessageKey in last.value
    requires AllMessages(objs)
    ensures Collapse(last, skips, objs).Err? ==> Collapse(last, skips, objs).error == DupNotInteger
    decreases |objs|
  {
    if objs != [] {
      assert forall r :: r in objs[1..] ==> r in objs;
      if last.Some? && objs[0][MessageKey] == last.value[MessageKey] {
        CollapseErrorIsDup(last, skips + 1, objs[1..]);
      } else {
        CollapseErrorIsDup(Some(objs[0]), 0, objs[1..]);
      }
    }
  }

  /** Bumping the carried record keeps the history valid and touches nothing
      but that record's DUP. */
  lemma CarryBumpedValid(logs: seq<Record>, wm: int, objs: seq<Record>)
    requires HistoryValid(logs, wm) && AllMessages(objs)
    ensures var b := CarryBumped(logs, objs);
      && HistoryValid(b, wm)
      && |b| == |logs|
      && (forall i :: 0 <= i < |logs| - 1 ==> b[i] == logs[i])
      && (logs != [] ==> b[|b| - 1] - {DupKey} == logs[|logs| - 1] - {DupKey})
  {
    if logs != [] {
      var c := logs[|logs| - 1];
      var k := RunLength(c[MessageKey], objs);
      BumpDupKeeps(c, k);
      var b := CarryBumped(logs, objs);
      assert b[|b| - 1] == BumpDup(c, k);
      assert forall i :: 0 <= i < |b| ==> Ts(b[i]) == Ts(logs[i]);
      assert BumpDup(c, k) - {DupKey} == c - {DupKey};
    }
  }

  /** Records above the newest stored timestamp can follow the history. */
  lemma AppendChronological(logs: seq<Record>, wm: int, added: seq<Record>)
    requires Chronological(logs) && (logs != [] ==> Ts(logs[|logs| - 1]) == wm)
    requires Chronological(added) && forall r :: r in added ==> Ts(r) > wm
    ensures Chronological(logs + added)
  {
    var all := logs + added;
    forall i, j | 0 <= i < j < |all| ensures Ts(all[i]) <= Ts(all[j]) {
      if j >= |logs| {
        assert all[j] == added[j - |logs|] && all[j] in added;
        if i < |logs| {
          assert Ts(all[i]) <= Ts(logs[|logs| - 1]);
        } else {
          assert all[i] == added[i - |logs|];
        }
      }
    }
  }

  /** A window of a sequence of stored records holds stored records. */
  lemma WindowStored(all: seq<Record>, n: nat)
    requires n <= |all| && forall i :: 0 <= i < |all| ==> Stored(all[i])
    ensures forall i :: 0 <= i < |all[n..]| ==> Stored(all[n..][i])
  {
    forall i | 0 <= i < |all[n..]| ensures Stored(all[n..][i]) {
      assert all[n..][i] == all[n + i];
    }
  }

  lemma JoinStored(bumped: seq<Record>, added: seq<Record>)
    requires forall i :: 0 <= i < |bumped| ==> Stored(bumped[i])
    requires forall r :: r in added ==> Stored(r)
    ensures forall i :: 0 <= i < |bumped + added| ==> Stored((bumped + added)[i])
  {
    var all := bumped + added;
    forall i | 0 <= i < |all| ensures Stored(all[i]) {
      if i >= |bumped| {
        assert all[i] == added[i - |bumped|] && all[i] in added;
      }
    }
  }

  /** The successful end of `update`: filter by the watermark, append each
      new record, move the watermark to the newest one delivered. */
  function Deliver(bumped: seq<Record>, wm: int, outs: seq<Record>): Outcome {
    var added := Fresh(outs, wm);
    var (kept, removed) := PushAll(bumped, added);
    Outcome(kept, if added == [] then wm else Ts(added[|added| - 1]), Ok(Delivery(added, removed)))
  }

  /** What a delivery promises, about the history it started from. */
  predicate Delivered(logs: seq<Record>, wm: int, o: Outcome) {
    o.result.Ok? &&
    var d := o.result.value;
    var m := Min(|o.logs|, |d.added|);
    && Chronological(d.added)
    && (forall r :: r in d.added ==> Stored(r) && Ts(r) > wm)
    && (d.added == [] ==> o.watermark == wm)
    && (d.added != [] ==> o.watermark == Ts(d.added[|d.added| - 1]) > wm)
    && HistoryValid(o.logs, o.watermark)
    && |o.logs| == Min(MaxLogs, |logs| + |d.added|)
    && d.removed == |logs| + |d.added| - |o.logs|
    && o.logs[|o.logs| - m..] == d.added[|d.added| - m..]
  }

  /** Appending records newer than the watermark to a valid history leaves a
      valid history whose watermark is the newest appended record. */
  lemma PushAllValid(bumped: seq<Record>, wm: int, added: seq<Record>)
    requires HistoryValid(bumped, wm)
    requires Chronological(added) && forall r :: r in added ==> Stored(r) && Ts(r) > wm
    ensures HistoryValid(PushAll(bumped, added).0, if added == [] then wm else Ts(added[|added| - 1]))
  {
    PushAllWindow(bumped, added);
    var kept := PushAll(bumped, added).0;
    var all := bumped + added;
    var n := |all| - |kept|;
    AppendChronological(bumped, wm, added);
    if all != [] {
      SuffixChronological(all, n);
    }
    JoinStored(bumped, added);
    WindowStored(all, n);
    if added != [] {
      assert kept[|kept| - 1] == all[|all| - 1] == added[|added| - 1];
    }
  }

  /** The delivered records are the last ones of the new history. */
  lemma PushAllEndsWith(bumped: seq<Record>, added: seq<Record>)
    requires |bumped| <= MaxLogs
    ensures var kept := PushAll(bumped, added).0;
      var m := Min(|kept|, |added|);
      && |kept| == Min(MaxLogs, |bumped| + |added|)
      && PushAll(bumped, added).1 == |bumped| + |added| - |kept|
      && kept[|kept| - m..] == added[|added| - m..]
  {
    PushAllWindow(bumped, added);
    var kept := PushAll(bumped, added).0;
    var all := bumped + added;
    var m := Min(|kept|, |added|);
    assert kept[|kept| - m..] == all[|all| - m..];
    assert all[|all| - m..] == added[|added| - m..];
  }

  lemma DeliverFacts(logs: seq<Record>, bumped: seq<Record>, wm: int, outs: seq<Record>)
    requires HistoryValid(bumped, wm) && |bumped| == |logs|
    requires forall r :: r in outs ==> Stored(r)
    requires Chronological(Fresh(outs, wm))
    ensures Delivered(logs, wm, Deliver(bumped, wm, outs))
  {
    var added := Fresh(outs, wm);
    PushAllValid(bumped, wm, added);
    PushAllEndsWith(bumped, added);
    if added != [] {
      assert added[|added| - 1] in added;
    }
  }

  /** A successful refresh is a delivery from the sorted batch's dedup. */
  lemma RefreshOk(logs: seq<Record>, wm: int, lines: seq<Line>)
    requires HistoryValid(logs, wm) && Refresh(logs, wm, lines).result.Ok?
    ensures Batch(lines).Ok?
    ensures Collapse(LastOf(logs), 0, Batch(lines).value).Ok?
    ensures Refresh(logs, wm, lines) ==
      Deliver(CarryBumped(logs, Batch(lines).value), wm, Collapse(LastOf(logs), 0, Batch(lines).value).value)
  {
  }

  /** A successful refresh delivers stored records above the old watermark
      in ascending time, moves the watermark to the newest of them, and keeps
      the newest MaxLogs records with the delivered ones at the end. */
  lemma RefreshDelivers(logs: seq<Record>, wm: int, lines: seq<Line>)
    requires HistoryValid(logs, wm)
    ensures Refresh(logs, wm, lines).result.Ok? ==> Delivered(logs, wm, Refresh(logs, wm, lines))
  {
    if Refresh(logs, wm, lines).result.Ok? {
      RefreshOk(logs, wm, lines);
      var sorted := Batch(lines).value;
      CarryBumpedValid(logs, wm, sorted);
      CollapseSorted(logs, wm, sorted);
      DeliverFacts(logs, CarryBumped(logs, sorted), wm, Collapse(LastOf(logs), 0, sorted).value);
    }
  }

  /** A refresh that fails leaves the watermark and the history as they were,
      except that on a DUP error the newest record's DUP has already been
      bumped in place; every other error changes nothing. */
  lemma RefreshErrorLeavesHistory(logs: seq<Record>, wm: int, lines: seq<Line>)
    requires HistoryValid(logs, wm)
    ensures var o := Refresh(logs, wm, lines);
      o.result.Err? ==>
        && o.watermark == wm
        && HistoryValid(o.logs, wm)
        && |o.logs| == |logs|
        && (forall i :: 0 <= i < |logs| - 1 ==> o.logs[i] == logs[i])
        && (logs != [] ==> o.logs[|logs| - 1] - {DupKey} == logs[|logs| - 1] - {DupKey})
        && (o.result.error != DupNotInteger ==> o.logs == logs)
  {
    var o := Refresh(logs, wm, lines);
    if o.result.Err? && Batch(lines).Ok? {
      var sorted := Batch(lines).value;
      CarryBumpedValid(logs, wm, sorted);
      CollapseErrorIsDup(LastOf(logs), 0, sorted);
    }
  }

  /** Every refresh leaves a valid history behind. */
  lemma RefreshKeepsHistory(logs: seq<Record>, wm: int, lines: seq<Line>)
    requires HistoryValid(logs, wm)
    ensures HistoryValid(Refresh(logs, wm, lines).logs, Refresh(logs, wm, lines).watermark)
    ensures Refresh(logs, wm, lines).watermark >= wm
  {
    RefreshDelivers(logs, wm, lines);
    RefreshErrorLeavesHistory(logs, wm, lines);
  }

  /** Nothing delivered lies above the watermark the delivery leaves. */
  lemma DeliveredNotAbove(logs: seq<Record>, wm: int, o: Outcome)
    requires Delivered(logs, wm, o)
    ensures forall r :: r in o.result.value.added ==> Ts(r) <= o.watermark
  {
    var a := o.result.value.added;
    forall r | r in a ensures Ts(r) <= o.watermark {
      var i :| 0 <= i < |a| && a[i] == r;
      assert Ts(a[i]) <= Ts(a[|a| - 1]);
    }
  }

  /** No record is delivered twice: whatever a later refresh delivers is newer
      than everything an earlier one delivered. */
  lemma RefreshTwiceNoRedelivery(logs: seq<Record>, wm: int, first: seq<Line>, second: seq<Line>)
    requires HistoryValid(logs, wm)
    ensures var o1 := Refresh(logs, wm, first);
      && HistoryValid(o1.logs, o1.watermark)
      && var o2 := Refresh(o1.logs, o1.watermark, second);
         o1.result.Ok? && o2.result.Ok? ==>
           forall r1, r2 :: r1 in o1.result.value.added && r2 in o2.result.value.added ==> Ts(r1) < Ts(r2)
  {
    var o1 := Refresh(logs, wm, first);
    RefreshKeepsHistory(logs, wm, first);
    var o2 := Refresh(o1.logs, o1.watermark, second);
    if o1.result.Ok? && o2.result.Ok? {
      RefreshDelivers(logs, wm, first);
      RefreshDelivers(o1.logs, o1.watermark, second);
      DeliveredNotAbove(logs, wm, o1);
    }
  }

  // ---------------------------------------------------------------------------
  // The retriever object

  lemma PrefixedTwice(xs: seq<Record>, ys: seq<Record>, r: Result<seq<Record>, LogError>)
    ensures Prefixed(xs, Prefixed(ys, r)) == Prefixed(xs + ys, r)
  {
    if r.Ok? {
      assert xs + (ys + r.value) == (xs + ys) + r.value;
    }
  }

  lemma PrefixedNothing(r: Result<seq<Record>, LogError>)
    ensures Prefixed([], r) == r
  {
    if r.Ok? {
      assert [] + r.value == r.value;
    }
  }

  /** RunLength pinned down by its two defining facts. */
  lemma RunLengthIs(m: Value, objs: seq<Record>, n: nat)
    requires AllMessages(objs) && n <= |objs|
    requires forall i :: 0 <= i < n ==> objs[i][MessageKey] == m
    requires n < |objs| ==> objs[n][MessageKey] != m
    ensures RunLength(m, objs) == n
  {
  }

  class LogRetriever {
    var logs: seq<Record>
    var lastMonotonicTime: int
    /** `last_log_text`: the decoded lines of the script's last successful run. */
    var lastLogText: seq<Line>

    ghost predicate Valid()
      reads this
    {
      HistoryValid(logs, lastMonotonicTime)
    }

    constructor ()
      ensures Valid()
      ensures logs == [] && lastMonotonicTime == 0 && lastLogText == []
    {
      logs := [];
      lastMonotonicTime := 0;
      lastLogText := [];
    }

    /** `append`: returns 1 when the oldest record had to make room, else 0. */
    method Append(log: Record) returns (numRemoved: nat)
      modifies this`logs
      ensures logs == Pushed(old(logs), log)
      ensures numRemoved == if |old(logs)| >= MaxLogs then 1 else 0
    {
      numRemoved := 0;
      if |logs| >= MaxLogs {
        logs := logs[1..];
        numRemoved := 1;
      }
      logs := logs + [log];
    }

    /** The dedup loop of `update`. The record carried in from the history
        is `logs[-1]` itself, so its DUP is bumped in the history in place;
        `carrying` says the loop still holds that record. */
    method CollapseRepeats(objs: seq<Record>) returns (r: Result<seq<Record>, LogError>)
      requires Valid() && AllMessages(objs)
      modifies this`logs
      ensures r == Collapse(LastOf(old(logs)), 0, objs)
      ensures logs == CarryBumped(old(logs), objs)
    {
      var truncated: seq<Record> := [];
      var lastLog := LastOf(logs);
      var carrying := logs != [];
      var skips: nat := 0;
      var i := 0;
      assert objs[0..] == objs;
      PrefixedNothing(Collapse(lastLog, skips, objs));
      while i < |objs|
        invariant 0 <= i <= |objs|
        invariant lastLog.Some? ==> MessageKey in lastLog.value
        invariant AllMessages(objs[i..])
        invariant Collapse(LastOf(old(logs)), 0, objs) == Prefixed(truncated, Collapse(lastLog, skips, objs[i..]))
        invariant carrying ==> old(logs) != [] && lastLog == LastOf(old(logs)) && skips == i && logs == old(logs)
        invariant carrying ==> forall j :: 0 <= j < i ==> objs[j][MessageKey] == lastLog.value[MessageKey]
        invariant !carrying ==> logs == CarryBumped(old(logs), objs)
      {
        var obj := objs[i];
        assert objs[i..][0] == obj && objs[i..][1..] == objs[i + 1..];
        SuffixMessages(objs, i + 1);
        if lastLog.Some? && obj[MessageKey] == lastLog.value[MessageKey] {
          skips := skips + 1;
        } else {
          if carrying {
            var c := lastLog.value;
            assert Stored(c);
            RunLengthIs(c[MessageKey], objs, i);
            var bumped := BumpDup(c, skips);
            PrefixedTwice(truncated, [bumped], Collapse(Some(obj), 0, objs[i + 1..]));
            logs := logs[..|logs| - 1] + [bumped];
            truncated := truncated + [bumped];
            carrying := false;
          } else if lastLog.Some? {
            var flushed := Flush(lastLog.value, skips);
            if flushed.Err? {
              return Err(flushed.error);
            }
            PrefixedTwice(truncated, [flushed.value], Collapse(Some(obj), 0, objs[i + 1..]));
            truncated := truncated + [flushed.value];
          }
          skips := 0;
          lastLog := Some(obj);
        }
        i := i + 1;
      }
      assert objs[i..] == [];
      if carrying {
        var c := lastLog.value;
        assert Stored(c);
        RunLengthIs(c[MessageKey], objs, i);
        var bumped := BumpDup(c, skips);
        logs := logs[..|logs| - 1] + [bumped];
        truncated := truncated + [bumped];
      } else if lastLog.Some? {
        var flushed := Flush(lastLog.value, skips);
        if flushed.Err? {
          return Err(flushed.error);
        }
        truncated := truncated + [flushed.value];
      } else {
        assert truncated + [] == truncated;
      }
      return Ok(truncated);
    }

    /** The loop of `update` that appends each new record and sums what
        `append` returns. */
    method AppendAll(added: seq<Record>) returns (numRemoved: nat)
      modifies this`logs
      ensures (logs, numRemoved) == PushAll(old(logs), added)
    {
      numRemoved := 0;
      var j := 0;
      while j < |added|
        invariant 0 <= j <= |added|
        invariant PushAll(old(logs), added[..j]) == (logs, numRemoved)
      {
        assert added[..j + 1][..j] == added[..j];
        var n := Append(added[j]);
        numRemoved := numRemoved + n;
        j := j + 1;
      }
      assert added[..j] == added;
    }

    /** `update`: `output` is None when the script exits with a non-zero
        status (nothing changes, nothing is returned) and otherwise the lines
        it printed, decoded. An error leaves the state `Refresh` describes. */
    method Update(output: Option<seq<Line>>) returns (r: Result<Delivery, LogError>)
      requires Valid()
      modifies this
      ensures Valid()
      ensures output.None? ==>
        r == Ok(Delivery([], 0)) && logs == old(logs) &&
        lastMonotonicTime == old(lastMonotonicTime) && lastLogText == old(lastLogText)
      ensures output.Some? ==>
        var o := Refresh(old(logs), old(lastMonotonicTime), output.value);
        && r == o.result && logs == o.logs && lastMonotonicTime == o.watermark
        && lastLogText == output.value
    {
      if output.None? {
        return Ok(Delivery([], 0));
      }
      var lines := output.value;
      lastLogText := lines;
      RefreshKeepsHistory(logs, lastMonotonicTime, lines);
      var parsed := ParseLines(lines);
      if parsed.Err? {
        return Err(parsed.error);
      }
      var objs := parsed.value;
      if !AllTimestamped(objs) {
        return Err(MissingTimestamp);
      }
      var sorted := SortByTs(objs);
      assert Batch(lines) == Ok(sorted);
      var collapsed := CollapseRepeats(sorted);
      if collapsed.Err? {
        return Err(collapsed.error);
      }
      var added := Fresh(collapsed.value, lastMonotonicTime);
      if added != [] {
        lastMonotonicTime := Ts(added[|added| - 1]);
      }
      var numRemoved := AppendAll(added);
      return Ok(Delivery(added, numRemoved));
    }
  }

  /** The decoding loop of `update`: `json.loads` then `mklog` on each line,
      stopping at the first failure. */
  method ParseLines(lines: seq<Line>) returns (r: Result<seq<Record>, LogError>)
    ensures r == ParseAll(lines)
  {
    var objs: seq<Record> := [];
    var i := 0;
    assert lines[0..] == lines;
    PrefixedNothing(ParseAll(lines));
    while i < |lines|
      invariant 0 <= i <= |lines|
      invariant ParseAll(lines) == Prefixed(objs, ParseAll(lines[i..]))
    {
      assert lines[i..][0] == lines[i] && lines[i..][1..] == lines[i + 1..];
      if lines[i].Malformed? {
        return Err(MalformedLine);
      }
      var obj := MkLog(lines[i].fields);
      if obj.Err? {
        return Err(obj.error);
      }
      PrefixedTwice(objs, [obj.value], ParseAll(lines[i + 1..]));
      objs := objs + [obj.value];
      i := i + 1;
    }
    assert lines[i..] == [] && objs + [] == objs;
    return Ok(objs);
  }
}
