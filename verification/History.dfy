/**
 Notification history: a JSON-lines file with rotation, and the in-memory
 window of the last 256 records.

 The file is a sequence of lines, each a text of bytes; only its last line can
 lack the newline, after a write that was cut short.  What a text says is up to
 a codec: bytes that are no UTF-8, a text that is no record, or a record.
 */
module History {
  import opened Wrappers

  const HISTORY_CAP := 1_048_576
  const WINDOW := 256

  datatype Record = Record(id: nat, app: string, summary: string, body: string, urgency: nat, received: nat)

  // One char a byte.
  type Text = string

  datatype Reading = NoText | NoRecord | Good(rec: Record)
  datatype Codec = Codec(encode: Record -> Text, read: Text -> Reading)

  // What JSON promises.  An encoded record reads back as itself.  Text before
  // it on the same line is white space, or the line is no record at all; white
  // space alone is no record either.
  ghost predicate Faithful(c: Codec) {
    && (forall r :: c.read(c.encode(r)) == Good(r))
    && (forall t: Text, r :: c.read(t + c.encode(r)).Good? && t != "" ==> c.read(t + c.encode(r)) == Good(r) && !c.read(t).Good?)
  }

  function Last<T>(s: seq<T>, n: nat): (r: seq<T>)
    ensures |r| <= n && |r| <= |s|
  {
    if |s| <= n then s else s[|s| - n..]
  }

  // The records of the lines that decode, in order.
  function Records(c: Codec, f: seq<Text>): seq<Record> {
    if f == [] then [] else Records(c, f[..|f| - 1]) + OneRecord(c, f[|f| - 1])
  }

  function OneRecord(c: Codec, t: Text): seq<Record> {
    if c.read(t).Good? then [c.read(t).rec] else []
  }

  // The lines a line reader yields without an error.
  function Readable(c: Codec, f: seq<Text>): (r: seq<Text>)
    ensures |r| <= |f|
    ensures forall t :: t in r ==> t in f
  {
    if f == [] then []
    else Readable(c, f[..|f| - 1]) + if c.read(f[|f| - 1]).NoText? then [] else [f[|f| - 1]]
  }

  // Size of a file of whole lines, newlines included.
  function Bytes(f: seq<Text>): nat {
    if f == [] then 0 else Bytes(f[..|f| - 1]) + |f[|f| - 1]| + 1
  }

  // `torn`: the last line has no newline.
  datatype State = State(file: seq<Text>, torn: bool, cached: seq<Record>)

  predicate FileShape(f: seq<Text>, torn: bool) { torn ==> f != [] && f[|f| - 1] != "" }

  function Open(c: Codec, f: seq<Text>, torn: bool): State { State(f, torn, Last(Records(c, f), WINDOW)) }

  // The lines in front of the next write, and what that write is joined to.
  function Front(s: State): seq<Text> { if s.torn && s.file != [] then s.file[..|s.file| - 1] else s.file }
  function Tail(s: State): Text { if s.torn && s.file != [] then s.file[|s.file| - 1] else "" }

  function Written(c: Codec, s: State, rec: Record): seq<Text> { Front(s) + [Tail(s) + c.encode(rec)] }

  predicate Rotates(c: Codec, s: State, rec: Record) { Bytes(Written(c, s, rec)) > HISTORY_CAP }

  // Write the line at the end of the file; past the cap keep only the last 256
  // readable lines; then the cache.
  function Append(c: Codec, s: State, rec: Record): State {
    var file := Written(c, s, rec);
    State(if Rotates(c, s, rec) then Last(Readable(c, file), WINDOW) else file, false, Last(s.cached + [rec], WINDOW))
  }

  function AppendAll(c: Codec, s: State, recs: seq<Record>): State {
    if recs == [] then s else Append(c, AppendAll(c, s, recs[..|recs| - 1]), recs[|recs| - 1])
  }

  // Reopening the file would rebuild the cache.
  predicate Agrees(c: Codec, s: State) { Open(c, s.file, s.torn).cached == s.cached }

  // ---------- windows ----------

  lemma LastOfAppend<T>(s: seq<T>, x: T, n: nat)
    requires n > 0
    ensures Last(Last(s, n) + [x], n) == Last(s + [x], n)
  {}

  predicate IsSuffix<T(==)>(a: seq<T>, h: seq<T>) {
    |a| <= |h| && a == h[|h| - |a|..]
  }

  lemma SuffixAppend<T>(a: seq<T>, h: seq<T>, x: seq<T>)
    requires IsSuffix(a, h)
    ensures IsSuffix(a + x, h + x)
  {}

  lemma SuffixTrans<T>(a: seq<T>, b: seq<T>, h: seq<T>)
    requires IsSuffix(a, b) && IsSuffix(b, h)
    ensures IsSuffix(a, h)
  {}

  // A window into what is left agrees with the full window exactly when enough
  // is left.
  lemma SuffixWindow<T>(a: seq<T>, h: seq<T>)
    requires IsSuffix(a, h)
    ensures Last(a, WINDOW) == Last(h, WINDOW) <==> |a| >= |Last(h, WINDOW)|
  {}

  lemma {:induction false} RecordsOfConcat(c: Codec, f: seq<Text>, g: seq<Text>)
    ensures Records(c, f + g) == Records(c, f) + Records(c, g)
  {
    if g == [] {
      assert f + g == f;
    } else {
      assert (f + g)[..|f + g| - 1] == f + g[..|g| - 1];
      RecordsOfConcat(c, f, g[..|g| - 1]);
    }
  }

  lemma RecordsOfOne(c: Codec, f: seq<Text>, t: Text)
    ensures Records(c, f + [t]) == Records(c, f) + OneRecord(c, t)
  {
    assert (f + [t])[..|f|] == f;
  }

  // Unreadable lines hold no records.
  lemma {:induction false} RecordsOfReadable(c: Codec, f: seq<Text>)
    ensures Records(c, Readable(c, f)) == Records(c, f)
  {
    if f != [] {
      var init, t := f[..|f| - 1], f[|f| - 1];
      RecordsOfReadable(c, init);
      if c.read(t).NoText? {
        assert Readable(c, f) == Readable(c, init) + [] == Readable(c, init);
      } else {
        RecordsOfOne(c, Readable(c, init), t);
      }
    }
  }

  // Lines taken off the front take records off the front.
  lemma RecordsOfTail(c: Codec, f: seq<Text>, n: nat)
    ensures IsSuffix(Records(c, Last(f, n)), Records(c, f))
  {
    var kept := Last(f, n);
    var dropped := f[..|f| - |kept|];
    assert f == dropped + kept;
    RecordsOfConcat(c, dropped, kept);
  }

  lemma RecordsOfRotation(c: Codec, f: seq<Text>)
    ensures IsSuffix(Records(c, Last(Readable(c, f), WINDOW)), Records(c, f))
  {
    RecordsOfReadable(c, f);
    RecordsOfTail(c, Readable(c, f), WINDOW);
  }

  // ---------- what a run remembers ----------

  // The cache is the last part of one history of records, the file holds a last
  // part of another: they part when a record is joined to a torn line.
  predicate Remembers(c: Codec, s: State, cacheHistory: seq<Record>, fileHistory: seq<Record>) {
    s.cached == Last(cacheHistory, WINDOW) && IsSuffix(Records(c, s.file), fileHistory)
  }

  lemma WholeLineRemembers(c: Codec, s: State, rec: Record, hc: seq<Record>, hf: seq<Record>)
    requires Faithful(c) && Remembers(c, s, hc, hf) && !s.torn
    ensures Remembers(c, Append(c, s, rec), hc + [rec], hf + [rec])
  {
    var file, line := Written(c, s, rec), "" + c.encode(rec);
    assert line == c.encode(rec) && file == s.file + [line];
    RecordsOfOne(c, s.file, line);
    hide Records, Readable, Rotates, Bytes;
    KeptRemembers(c, s, rec, file, hc, hf, [rec]);
  }

  // Whatever was written, what is kept of it is a last part of it.
  lemma KeptRemembers(c: Codec, s: State, rec: Record, file: seq<Text>, hc: seq<Record>, hf: seq<Record>, new_: seq<Record>)
    requires file == Written(c, s, rec) && s.cached == Last(hc, WINDOW)
    requires exists old_ :: IsSuffix(old_, hf) && Records(c, file) == old_ + new_
    ensures Remembers(c, Append(c, s, rec), hc + [rec], hf + new_)
  {
    var old_ :| IsSuffix(old_, hf) && Records(c, file) == old_ + new_;
    SuffixAppend(old_, hf, new_);
    RecordsOfRotation(c, file);
    var t := Append(c, s, rec);
    assert t.cached == Last(s.cached + [rec], WINDOW);
    hide Records, Readable, Rotates, Written;
    LastOfAppend(hc, rec, WINDOW);
    SuffixTrans(Records(c, t.file), Records(c, file), hf + new_);
  }

  // The joined line keeps the new record exactly when the tail is white space.
  lemma JoinedRemembers(c: Codec, f: seq<Text>, rec: Record)
    requires Faithful(c) && FileShape(f, true)
    ensures var s := Open(c, f, true); var a := Records(c, Front(s));
      && Remembers(c, Append(c, s, rec), Records(c, f) + [rec], a + OneRecord(c, Tail(s) + c.encode(rec)))
      && Records(c, f) == a + OneRecord(c, Tail(s))
  {
    var s := Open(c, f, true);
    var front, line := Front(s), Tail(s) + c.encode(rec);
    assert f == front + [Tail(s)];
    RecordsOfOne(c, front, Tail(s));
    RecordsOfOne(c, front, line);
    hide Records, Readable, Rotates, OneRecord, Faithful;
    assert IsSuffix(Records(c, front), Records(c, front));
    KeptRemembers(c, s, rec, Written(c, s, rec), Records(c, f), Records(c, front), OneRecord(c, line));
  }

  // The two histories of a run: records the cache was given, and records the
  // file was given.
  function FileHistory(c: Codec, f: seq<Text>, torn: bool, recs: seq<Record>): seq<Record> {
    var s := Open(c, f, torn);
    if torn && recs != [] then Records(c, Front(s)) + OneRecord(c, Tail(s) + c.encode(recs[0])) + recs[1..]
    else Records(c, f) + recs
  }

  lemma {:induction false} RunRemembers(c: Codec, f: seq<Text>, torn: bool, recs: seq<Record>)
    requires Faithful(c) && FileShape(f, torn)
    ensures var s := AppendAll(c, Open(c, f, torn), recs);
      Remembers(c, s, Records(c, f) + recs, FileHistory(c, f, torn, recs)) && (s.torn <==> torn && recs == [])
  {
    if recs == [] {
      assert Records(c, f) + recs == Records(c, f);
    } else {
      var init, rec := recs[..|recs| - 1], recs[|recs| - 1];
      assert recs == init + [rec];
      assert Records(c, f) + recs == Records(c, f) + init + [rec];
      RunRemembers(c, f, torn, init);
      var s := AppendAll(c, Open(c, f, torn), init);
      assert AppendAll(c, Open(c, f, torn), recs) == Append(c, s, rec) && !Append(c, s, rec).torn;
      if init == [] && torn {
        FirstRemembers(c, f, rec);
      } else {
        HistoryNext(c, f, torn, init, rec);
        hide Records, FileHistory, Remembers, Faithful, Append, AppendAll;
        WholeLineRemembers(c, s, rec, Records(c, f) + init, FileHistory(c, f, torn, init));
      }
    }
  }

  lemma FirstRemembers(c: Codec, f: seq<Text>, rec: Record)
    requires Faithful(c) && FileShape(f, true)
    ensures Remembers(c, Append(c, Open(c, f, true), rec), Records(c, f) + [rec], FileHistory(c, f, true, [rec]))
  {
    JoinedRemembers(c, f, rec);
    FirstHistory(c, f, rec);
    hide *;
  }

  lemma FirstHistory(c: Codec, f: seq<Text>, rec: Record)
    ensures var s := Open(c, f, true);
      FileHistory(c, f, true, [rec]) == Records(c, Front(s)) + OneRecord(c, Tail(s) + c.encode(rec))
  {
    var s := Open(c, f, true);
    var h := Records(c, Front(s)) + OneRecord(c, Tail(s) + c.encode(rec));
    hide Open, Records, OneRecord, Front, Tail;
    assert [rec][1..] == [];
    assert h + [] == h;
  }

  lemma HistoryNext(c: Codec, f: seq<Text>, torn: bool, init: seq<Record>, rec: Record)
    requires init != [] || !torn
    ensures FileHistory(c, f, torn, init + [rec]) == FileHistory(c, f, torn, init) + [rec]
  {
    if torn {
      assert (init + [rec])[1..] == init[1..] + [rec];
    }
  }

  // ---------- agreement ----------

  // The first append after a cut write loses its record to the torn line.
  predicate Loses(c: Codec, f: seq<Text>, torn: bool, recs: seq<Record>) {
    torn && recs != [] && !c.read(Tail(Open(c, f, torn)) + c.encode(recs[0])).Good?
  }

  // Records lost: the torn line's own, if it was whole but for the newline, and
  // the first one appended.
  function Lost(c: Codec, f: seq<Text>, recs: seq<Record>): seq<Record>
    requires recs != []
  {
    OneRecord(c, Tail(Open(c, f, true))) + [recs[0]]
  }

  // The window over what came before looks the same with the lost records cut
  // out: every record in it equals the one that many places earlier.
  predicate Repeats(before: seq<Record>, lost: seq<Record>, n: nat) {
    Last(before, n) == Last(before + lost, n)
  }

  lemma GapWindow(a: seq<Record>, lost: seq<Record>, b: seq<Record>, kept: seq<Record>)
    requires lost != [] && IsSuffix(kept, a + b)
    ensures Last(kept, WINDOW) == Last(a + lost + b, WINDOW)
       <==> |kept| >= |Last(a + lost + b, WINDOW)| && (|b| >= WINDOW || Repeats(a, lost, WINDOW - |b|))
  {
    var all := a + lost + b;
    if |b| >= WINDOW {
      assert Last(all, WINDOW) == Last(b, WINDOW) == Last(a + b, WINDOW);
      SuffixWindow(kept, a + b);
    } else if |kept| >= |Last(all, WINDOW)| {
      var n := WINDOW - |b|;
      assert |Last(all, WINDOW)| == WINDOW && |kept| >= WINDOW && |a| >= n;
      assert Last(kept, WINDOW) == Last(a + b, WINDOW) == Last(a, n) + b;
      assert Last(all, WINDOW) == Last(a + lost, n) + b;
      SamePrefix(Last(a, n), Last(a + lost, n), b);
    }
  }

  lemma SamePrefix<T>(x: seq<T>, y: seq<T>, b: seq<T>)
    requires |x| == |y|
    ensures x + b == y + b <==> x == y
  {
    if x + b == y + b {
      assert (x + b)[..|x|] == x && (y + b)[..|y|] == y;
    }
  }

  // From any file, whole or torn, its lines decodable or not, after any
  // appends.  The cache is the last 256 records ever decoded or appended.
  // Reopening the file rebuilds it if and only if the file holds that many
  // records and no record was lost to a torn line - or those lost have left
  // the window, or their loss does not show because the records repeat.
  lemma ReopenAgreesIff(c: Codec, f: seq<Text>, torn: bool, recs: seq<Record>)
    requires Faithful(c) && FileShape(f, torn)
    ensures var s := AppendAll(c, Open(c, f, torn), recs);
      && s.cached == Last(Records(c, f) + recs, WINDOW)
      && (Agrees(c, s) <==>
            && |Records(c, s.file)| >= |s.cached|
            && (Loses(c, f, torn, recs) ==>
                  || |recs| > WINDOW
                  || Repeats(Records(c, Front(Open(c, f, torn))), Lost(c, f, recs), WINDOW + 1 - |recs|)))
  {
    RunRemembers(c, f, torn, recs);
    var s := AppendAll(c, Open(c, f, torn), recs);
    assert Agrees(c, s) <==> Last(Records(c, s.file), WINDOW) == s.cached;
    if Loses(c, f, torn, recs) {
      LostHistory(c, f, recs);
      hide AppendAll, Records, Agrees, Loses, Lost, FileHistory, Faithful, Repeats;
      GapWindow(Records(c, Front(Open(c, f, torn))), Lost(c, f, recs), recs[1..], Records(c, s.file));
    } else {
      KeptHistory(c, f, torn, recs);
      hide AppendAll, Records, Agrees, Loses, FileHistory, Faithful;
      SuffixWindow(Records(c, s.file), Records(c, f) + recs);
    }
  }

  lemma SplitTail(c: Codec, f: seq<Text>)
    requires FileShape(f, true)
    ensures var s := Open(c, f, true); Records(c, f) == Records(c, Front(s)) + OneRecord(c, Tail(s))
  {
    var s := Open(c, f, true);
    assert f == Front(s) + [Tail(s)];
    RecordsOfOne(c, Front(s), Tail(s));
  }

  lemma Regroup<T>(a: seq<T>, t: seq<T>, recs: seq<T>)
    requires recs != []
    ensures a + t + recs == a + (t + [recs[0]]) + recs[1..]
    ensures a + [recs[0]] + recs[1..] == a + recs && a + [] == a
  {}

  lemma LostHistory(c: Codec, f: seq<Text>, recs: seq<Record>)
    requires FileShape(f, true) && Loses(c, f, true, recs)
    ensures var a := Records(c, Front(Open(c, f, true)));
      && Records(c, f) + recs == a + Lost(c, f, recs) + recs[1..]
      && FileHistory(c, f, true, recs) == a + recs[1..]
  {
    SplitTail(c, f);
    var s := Open(c, f, true);
    var a := Records(c, Front(s));
    assert OneRecord(c, Tail(s) + c.encode(recs[0])) == [];
    hide Records, OneRecord, Loses, Open;
    Regroup(a, OneRecord(c, Tail(s)), recs);
  }

  lemma KeptHistory(c: Codec, f: seq<Text>, torn: bool, recs: seq<Record>)
    requires Faithful(c) && FileShape(f, torn) && !Loses(c, f, torn, recs)
    ensures FileHistory(c, f, torn, recs) == Records(c, f) + recs
  {
    if torn && recs != [] {
      SplitTail(c, f);
      var s := Open(c, f, true);
      var a := Records(c, Front(s));
      assert c.read(Tail(s) + c.encode(recs[0])) == Good(recs[0]);
      assert OneRecord(c, Tail(s) + c.encode(recs[0])) == [recs[0]] && OneRecord(c, Tail(s)) == [];
      hide Records, OneRecord, Loses, Open, Faithful;
      Regroup(a, [], recs);
    }
  }

  // A loss shows unless the new record equals the last one before it.
  lemma LossShows(before: seq<Record>, lost: seq<Record>, n: nat)
    requires n > 0 && lost != [] && (before == [] || before[|before| - 1] != lost[|lost| - 1])
    ensures !Repeats(before, lost, n)
  {
    var x, y := Last(before, n), Last(before + lost, n);
    assert y != [] && y[|y| - 1] == lost[|lost| - 1];
    assert x != [] ==> x[|x| - 1] == before[|before| - 1];
  }

  // One append to a file of whole lines, from any state a run reaches:
  // reopening will rebuild the cache if and only if the lines that stay hold at
  // least min(|cached|, 255) records.
  lemma AppendAgreesIff(c: Codec, s: State, rec: Record, h: seq<Record>)
    requires Faithful(c) && Remembers(c, s, h, h) && !s.torn
    ensures Agrees(c, Append(c, s, rec))
       <==> |Records(c, Staying(c, s, rec))| >= if |s.cached| < WINDOW then |s.cached| else WINDOW - 1
  {
    var t := Append(c, s, rec);
    WholeLineRemembers(c, s, rec, h, h);
    StayingRecords(c, s, rec);
    assert Agrees(c, t) <==> Last(Records(c, t.file), WINDOW) == t.cached;
    assert t.cached == Last(s.cached + [rec], WINDOW);
    hide Records, Staying, Rotates, Agrees, Append, Faithful;
    SuffixWindow(Records(c, t.file), h + [rec]);
  }

  // The lines that will stay in front of a new one.
  function Staying(c: Codec, s: State, rec: Record): seq<Text> {
    if Rotates(c, s, rec) then Last(Readable(c, s.file), WINDOW - 1) else s.file
  }

  lemma StayingRecords(c: Codec, s: State, rec: Record)
    requires Faithful(c) && !s.torn
    ensures Records(c, Append(c, s, rec).file) == Records(c, Staying(c, s, rec)) + [rec]
  {
    var line, stay := "" + c.encode(rec), Staying(c, s, rec);
    assert line == c.encode(rec) && Written(c, s, rec) == s.file + [line];
    ReadableNext(c, s.file, line);
    RecordsOfOne(c, stay, line);
    hide Records, Readable, Rotates;
    assert Append(c, s, rec).file == stay + [line];
  }

  lemma ReadableNext(c: Codec, f: seq<Text>, t: Text)
    requires !c.read(t).NoText?
    ensures Readable(c, f + [t]) == Readable(c, f) + [t]
  {
    assert (f + [t])[..|f|] == f;
  }

  // ---------- well-formed files ----------

  predicate WellFormed(c: Codec, f: seq<Text>) { forall t :: t in f ==> c.read(t).Good? }

  // From a file of whole, well-formed lines it always does.
  lemma CacheAgreesWithFile(c: Codec, f: seq<Text>, recs: seq<Record>)
    requires Faithful(c) && WellFormed(c, f)
    ensures var s := AppendAll(c, Open(c, f, false), recs);
      s.cached == Last(Records(c, f) + recs, WINDOW) && Agrees(c, s) && WellFormed(c, s.file)
  {
    ReopenAgreesIff(c, f, false, recs);
    WellFormedKeeps(c, f, recs);
    hide AppendAll, Open, Records, Agrees, WellFormed, Faithful;
  }

  lemma {:induction false} WellFormedKeeps(c: Codec, f: seq<Text>, recs: seq<Record>)
    requires Faithful(c) && WellFormed(c, f)
    ensures var s := AppendAll(c, Open(c, f, false), recs);
      !s.torn && WellFormed(c, s.file) && |Records(c, s.file)| >= |s.cached|
  {
    if recs != [] {
      var init, rec := recs[..|recs| - 1], recs[|recs| - 1];
      WellFormedKeeps(c, f, init);
      WellFormedAppend(c, AppendAll(c, Open(c, f, false), init), rec);
      hide Append, Records, WellFormed, Faithful;
    }
  }

  lemma {:induction false} WellFormedRecords(c: Codec, f: seq<Text>)
    requires WellFormed(c, f)
    ensures |Records(c, f)| == |f| && Readable(c, f) == f
  {
    if f != [] {
      assert f[|f| - 1] in f;
      WellFormedRecords(c, f[..|f| - 1]);
    }
  }

  lemma WellFormedAppend(c: Codec, s: State, rec: Record)
    requires Faithful(c) && !s.torn && WellFormed(c, s.file) && |Records(c, s.file)| >= |s.cached|
    ensures var t := Append(c, s, rec); WellFormed(c, t.file) && |Records(c, t.file)| >= |t.cached|
  {
    var line := "" + c.encode(rec);
    var file := s.file + [line];
    assert line == c.encode(rec) && Written(c, s, rec) == file;
    var t := Append(c, s, rec);
    assert t.file == (if Rotates(c, s, rec) then Last(Readable(c, file), WINDOW) else file) && t.cached == Last(s.cached + [rec], WINDOW);
    assert WellFormed(c, file) && WellFormed(c, Last(file, WINDOW));
    hide Records, Readable, Bytes, Faithful, Append, Rotates, Written, WellFormed;
    WellFormedRecords(c, s.file);
    WellFormedRecords(c, file);
    WellFormedRecords(c, Last(file, WINDOW));
  }

  // ---------- when it does not ----------

  lemma {:induction false} NoRecords(c: Codec, f: seq<Text>)
    requires forall t :: t in f ==> !c.read(t).Good?
    ensures Records(c, f) == []
  {
    if f != [] {
      assert f[|f| - 1] in f;
      NoRecords(c, f[..|f| - 1]);
    }
  }

  lemma {:induction false} BytesAtLeast(f: seq<Text>, each: nat)
    requires forall t :: t in f ==> |t| + 1 >= each
    ensures Bytes(f) >= |f| * each
  {
    if f != [] {
      assert f[|f| - 1] in f;
      BytesAtLeast(f[..|f| - 1], each);
      assert |f| * each == (|f| - 1) * each + each;
    }
  }

  lemma {:induction false} BytesOfConcat(f: seq<Text>, g: seq<Text>)
    ensures Bytes(f + g) == Bytes(f) + Bytes(g)
  {
    if g == [] {
      assert f + g == f;
    } else {
      assert (f + g)[..|f + g| - 1] == f + g[..|g| - 1];
      BytesOfConcat(f, g[..|g| - 1]);
    }
  }

  // A record before 256 long lines that are no records is lost to the first
  // rotation, and the cache keeps it.
  lemma MalformedLinesBreakAgreement(c: Codec, r: Record, x: Record, junk: Text)
    requires Faithful(c) && c.read(junk) == NoRecord && |junk| >= 4_096
    ensures var f := [c.encode(r)] + seq(WINDOW, _ => junk);
      Agrees(c, Open(c, f, false)) && !Agrees(c, Append(c, Open(c, f, false), x))
  {
    var noise := seq(WINDOW, _ => junk);
    var f := [c.encode(r)] + noise;
    assert forall t :: t in noise ==> t == junk;
    NoiseRecords(c, r, noise);
    NoiseRotates(c, f, noise, x);
    NoiseStays(c, f, noise);
    hide Records, Bytes, Readable, Faithful, Rotates;
    NoRecords(c, Last(Readable(c, f), WINDOW - 1));
    AppendAgreesIff(c, Open(c, f, false), x, [r]);
  }

  lemma NoiseRecords(c: Codec, r: Record, noise: seq<Text>)
    requires Faithful(c) && forall t :: t in noise ==> !c.read(t).Good?
    ensures Records(c, [c.encode(r)] + noise) == [r]
  {
    NoRecords(c, noise);
    RecordsOfConcat(c, [c.encode(r)], noise);
    assert [] + [c.encode(r)] == [c.encode(r)];
    RecordsOfOne(c, [], c.encode(r));
    assert [r] + [] == [r];
    hide Records;
  }

  lemma NoiseRotates(c: Codec, f: seq<Text>, noise: seq<Text>, x: Record)
    requires |noise| == WINDOW && (forall t :: t in noise ==> |t| >= 4_096) && |f| > 0 && f == [f[0]] + noise
    ensures Rotates(c, Open(c, f, false), x)
  {
    BytesAtLeast(noise, 4_097);
    var line := "" + c.encode(x);
    assert Written(c, Open(c, f, false), x) == [f[0]] + noise + [line];
    BytesOfConcat([f[0]], noise);
    BytesOfConcat([f[0]] + noise, [line]);
  }

  lemma {:induction false} AllReadable(c: Codec, f: seq<Text>)
    requires forall t :: t in f ==> !c.read(t).NoText?
    ensures Readable(c, f) == f
  {
    if f != [] {
      assert f[|f| - 1] in f;
      AllReadable(c, f[..|f| - 1]);
    }
  }

  lemma NoiseStays(c: Codec, f: seq<Text>, noise: seq<Text>)
    requires |noise| == WINDOW && (forall t :: t in noise ==> c.read(t) == NoRecord)
    requires |f| > 0 && f == [f[0]] + noise && !c.read(f[0]).NoText?
    ensures forall t :: t in Last(Readable(c, f), WINDOW - 1) ==> !c.read(t).Good?
  {
    AllReadable(c, f);
    var kept := Last(f, WINDOW - 1);
    forall t | t in kept ensures t in noise {
      var k :| 0 <= k < |kept| && kept[k] == t;
      assert kept[k] == f[k + 2] == noise[k + 1];
    }
  }

  // A cut write in front of the first append loses that record to a joined
  // line, although the file still holds 256 records.
  lemma TornLineLosesARecord(c: Codec, f: seq<Text>, x: Record)
    requires Faithful(c) && FileShape(f, true) && Loses(c, f, true, [x])
    requires var a := Records(c, Front(Open(c, f, true))); |a| >= WINDOW && a[|a| - 1] != x
    requires !Rotates(c, Open(c, f, true), x)
    ensures var s := Append(c, Open(c, f, true), x);
      |Records(c, s.file)| >= |s.cached| == WINDOW && !Agrees(c, s)
  {
    var s0 := Open(c, f, true);
    var a := Records(c, Front(s0));
    ReopenAgreesIff(c, f, true, [x]);
    OneAppend(c, s0, x);
    TornCounts(c, f, x);
    LostLast(c, f, x);
    hide *;
    LossShows(a, Lost(c, f, [x]), WINDOW);
  }

  lemma LostLast(c: Codec, f: seq<Text>, x: Record)
    ensures Lost(c, f, [x]) != [] && Lost(c, f, [x])[|Lost(c, f, [x])| - 1] == x
  {}

  lemma OneAppend(c: Codec, s: State, x: Record)
    ensures AppendAll(c, s, [x]) == Append(c, s, x)
  {
    assert [x][..0] == [] && AppendAll(c, s, []) == s;
    hide Append;
  }

  lemma TornCounts(c: Codec, f: seq<Text>, x: Record)
    requires FileShape(f, true) && !Rotates(c, Open(c, f, true), x) && |Records(c, Front(Open(c, f, true)))| >= WINDOW
    ensures var s := Append(c, Open(c, f, true), x); |Records(c, s.file)| >= |s.cached| == WINDOW
  {
    var s0 := Open(c, f, true);
    SplitTail(c, f);
    RecordsOfOne(c, Front(s0), Tail(s0) + c.encode(x));
    hide Records, OneRecord;
  }

  // ---------- size ----------

  lemma {:induction false} BytesOfSmall(f: seq<Text>, max: nat)
    requires forall t :: t in f ==> |t| + 1 <= max
    ensures Bytes(f) <= |f| * max
  {
    if f != [] {
      assert f[|f| - 1] in f;
      BytesOfSmall(f[..|f| - 1], max);
      assert |f| * max == (|f| - 1) * max + max;
    }
  }

  // After any append the file is within the cap, or is its own last 256 lines.
  lemma FileSize(c: Codec, s: State, rec: Record)
    ensures var t := Append(c, s, rec);
      && !t.torn
      && (Bytes(t.file) <= HISTORY_CAP || t.file == Last(t.file, WINDOW))
      && ((forall l :: l in t.file ==> |l| + 1 <= 4_096) ==> Bytes(t.file) <= HISTORY_CAP)
  {
    var t := Append(c, s, rec);
    if forall l :: l in t.file ==> |l| + 1 <= 4_096 { BytesOfSmall(t.file, 4_096); }
  }

  // A byte for each character and one for each newline.
  lemma BytesIs(f: seq<Text>, t: Text)
    ensures Bytes([]) == 0 && Bytes(f + [t]) == Bytes(f) + |t| + 1
  {
    assert (f + [t])[..|f|] == f;
  }

  // Up to 1 MiB an append keeps every line and puts the record's own line last,
  // or behind the bytes of a torn one; beyond it, just the last 256 readable
  // lines of that stay.  The cache gains the record.
  lemma AppendWrites(c: Codec, s: State, rec: Record)
    requires FileShape(s.file, s.torn)
    ensures var t := Append(c, s, rec); var n := |s.file|;
            var file := if s.torn then s.file[..n - 1] + [s.file[n - 1] + c.encode(rec)] else s.file + [c.encode(rec)];
      && (Bytes(file) <= 1_048_576 ==> t.file == file)
      && (Bytes(file) > 1_048_576 ==>
            var lines := Readable(c, file);
            t.file == if |lines| <= 256 then lines else lines[|lines| - 256..])
      && t.cached == (if |s.cached| < 256 then s.cached + [rec] else s.cached[|s.cached| - 255..] + [rec])
  {
    assert "" + c.encode(rec) == c.encode(rec);
    hide Readable, Bytes;
  }

  // A line is readable unless its bytes are no text; order is kept.
  lemma ReadableIs(c: Codec, f: seq<Text>, t: Text)
    ensures Readable(c, []) == []
    ensures Readable(c, f + [t]) == if c.read(t) == NoText then Readable(c, f) else Readable(c, f) + [t]
  {
    assert (f + [t])[..|f|] == f;
  }

  // ---------- the object ----------

  class HistoryLog {
    const codec: Codec
    var file: seq<Text>
    var torn: bool
    var cached: seq<Record>

    function View(): State
      reads this
    {
      State(file, torn, cached)
    }

    // open_or_create on an existing file: keep the last 256 decodable lines.
    constructor (codec: Codec, contents: seq<Text>, torn: bool)
      ensures View() == Open(codec, contents, torn) && this.codec == codec
    {
      this.codec := codec;
      var recent: seq<Record> := [];
      for k := 0 to |contents|
        invariant recent == Last(Records(codec, contents[..k]), WINDOW)
      {
        assert contents[..k + 1][..k] == contents[..k];
        match codec.read(contents[k])
        case Good(rec) =>
          LastOfAppend(Records(codec, contents[..k]), rec, WINDOW);
          recent := recent + [rec];
          if |recent| > WINDOW { recent := recent[1..]; }
        case _ =>
      }
      assert contents[..|contents|] == contents;
      file := contents;
      this.torn := torn;
      cached := recent;
    }

    // rename, reopen empty, replay the last 256 readable lines of the old file.
    method Rotate()
      modifies this`file
      ensures file == Last(Readable(codec, old(file)), WINDOW)
    {
      var rotation := file;
      file := [];
      var lines := ReadLines(rotation);
      var replay := TakeLastReversed(lines);
      var i := |replay|;
      while i > 0
        invariant 0 <= i <= |replay| <= |lines|
        invariant file == lines[|lines| - |replay|..|lines| - i]
      {
        i := i - 1;
        file := file + [replay[i]];
      }
    }

    // lines().filter_map(Result::ok)
    method ReadLines(f: seq<Text>) returns (lines: seq<Text>)
      ensures lines == Readable(codec, f)
    {
      lines := [];
      for k := 0 to |f|
        invariant lines == Readable(codec, f[..k])
      {
        assert f[..k + 1][..k] == f[..k];
        if !codec.read(f[k]).NoText? { lines := lines + [f[k]]; }
      }
      assert f[..|f|] == f;
    }

    // rev().take(256)
    method TakeLastReversed(lines: seq<Text>) returns (r: seq<Text>)
      ensures |r| == |Last(lines, WINDOW)|
      ensures forall i :: 0 <= i < |r| ==> r[i] == lines[|lines| - 1 - i]
    {
      r := [];
      while |r| < WINDOW && |r| < |lines|
        invariant |r| <= WINDOW && |r| <= |lines|
        invariant forall i :: 0 <= i < |r| ==> r[i] == lines[|lines| - 1 - i]
      {
        r := r + [lines[|lines| - 1 - |r|]];
      }
    }

    // The write lands at the end of the file, after a torn line if there is one.
    method WriteLine(line: Text)
      modifies this`file, this`torn
      ensures !torn
      ensures file == Front(old(View())) + [Tail(old(View())) + line]
    {
      if torn && file != [] {
        file := file[..|file| - 1] + [file[|file| - 1] + line];
      } else {
        assert "" + line == line;
        file := file + [line];
      }
      torn := false;
    }

    method AppendRecord(rec: Record)
      modifies this
      ensures View() == Append(codec, old(View()), rec)
    {
      WriteLine(codec.encode(rec));
      var pos := Bytes(file);
      if pos > HISTORY_CAP { Rotate(); }
      cached := cached + [rec];
      if |cached| > WINDOW { cached := cached[|cached| - WINDOW..]; }
    }
  }
}
