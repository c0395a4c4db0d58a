/** The audit log: a file of rows, each hashed together with the hash of the row before it and
    signed when the log has a signer. Hash and signature are ideal: a hash is the term that was
    hashed, so different inputs never collide and none hashes to the zero hash. */
module Audit {
  import opened Paths
  import opened Texts

  datatype Hash = Zero | Sha(previous: Hash, body: Body)

  /** A JSON object without its hash and signature; the other fields are kept as text. */
  datatype Body = Body(previousHash: Option<Hash>, fields: map<string, string>)

  datatype RowSignature = Signed(key: nat, body: Body, hash: Hash) | ForgedRow(text: string)

  /** One line of the file. `Malformed` is anything that is not one JSON object. */
  datatype Line = Blank | Malformed | Row(body: Body, hash: Option<Hash>, signature: Option<RowSignature>)

  datatype Checked = Verified(count: nat, head: Hash) | Broken(line: nat)

  /** How far a write of a row and its newline gets. */
  datatype Writing = Whole | RowOnly | Torn | Nothing

  function Rows(lines: seq<Line>): seq<Line>
  {
    if lines == [] then []
    else
      var rest := Rows(lines[..|lines| - 1]);
      var last := lines[|lines| - 1];
      if last.Row? then rest + [last] else rest
  }

  /** The hash of the last of the first `n` rows. */
  function HeadAt(rows: seq<Line>, n: nat): Hash
    requires n <= |rows|
  {
    if n > 0 && rows[n - 1].Row? && rows[n - 1].hash.Some? then rows[n - 1].hash.value else Zero
  }

  function HeadOf(rows: seq<Line>): Hash {
    HeadAt(rows, |rows|)
  }

  /** The row continues a chain whose head is `previous`. */
  predicate Links(previous: Hash, row: Line, signer: Option<nat>) {
    && row.Row? && row.body.previousHash == Some(previous) && row.hash == Some(Sha(previous, row.body))
    && (signer.Some? ==> row.signature == Some(Signed(signer.value, row.body, row.hash.value)))
  }

  predicate LinkAt(rows: seq<Line>, i: nat, signer: Option<nat>)
    requires i < |rows|
  {
    Links(HeadAt(rows, i), rows[i], signer)
  }

  /** Every row links to the rows before it. */
  predicate Chained(rows: seq<Line>, signer: Option<nat>) {
    forall i | 0 <= i < |rows| :: LinkAt(rows, i, signer)
  }

  predicate Verifies(lines: seq<Line>, signer: Option<nat>) {
    (forall i | 0 <= i < |lines| :: lines[i] != Malformed) && Chained(Rows(lines), signer)
  }

  lemma {:induction false} RowsAre(lines: seq<Line>, row: Line)
    ensures row in Rows(lines) <==> row in lines && row.Row?
  {
    if lines != [] {
      var n := |lines| - 1;
      RowsAre(lines[..n], row);
      assert lines == lines[..n] + [lines[n]];
    }
  }

  /** Row `i` stores the hash of the row before it, or zeros if it is the first; its own hash is that
      of this hash and its body; and its signature, where there is a signer, is for body and hash. */
  predicate ContinuesAt(rows: seq<Line>, i: nat, signer: Option<nat>)
    requires i < |rows|
  {
    var previous := if i == 0 then Some(Zero) else if rows[i - 1].Row? then rows[i - 1].hash else None;
    && rows[i].Row? && previous.Some? && rows[i].body.previousHash == previous
    && rows[i].hash == Some(Sha(previous.value, rows[i].body))
    && (signer.None? || rows[i].signature == Some(Signed(signer.value, rows[i].body, rows[i].hash.value)))
  }

  predicate Continued(rows: seq<Line>, signer: Option<nat>) {
    forall i | 0 <= i < |rows| :: ContinuesAt(rows, i, signer)
  }

  lemma ChainContinues(rows: seq<Line>, signer: Option<nat>)
    ensures Chained(rows, signer) <==> Continued(rows, signer)
  {
    if Chained(rows, signer) {
      forall i | 0 <= i < |rows| ensures ContinuesAt(rows, i, signer) {
        assert LinkAt(rows, i, signer) && (i > 0 ==> LinkAt(rows, i - 1, signer));
      }
    }
    if Continued(rows, signer) {
      forall i | 0 <= i < |rows| ensures LinkAt(rows, i, signer) {
        assert ContinuesAt(rows, i, signer) && (i > 0 ==> ContinuesAt(rows, i - 1, signer));
      }
    }
  }

  predicate AllRows(lines: seq<Line>) {
    forall i | 0 <= i < |lines| :: lines[i] == Blank || lines[i].Row?
  }

  /** A log verifies if and only if every line is blank or a row, and every row continues the chain. */
  lemma VerifiesExactly(lines: seq<Line>, signer: Option<nat>)
    ensures Verifies(lines, signer) <==> AllRows(lines) && Continued(Rows(lines), signer)
  {
    ChainContinues(Rows(lines), signer);
  }

  lemma ChainedStep(rows: seq<Line>, row: Line, signer: Option<nat>)
    ensures Chained(rows + [row], signer) <==> Chained(rows, signer) && Links(HeadOf(rows), row, signer)
  {
    var all := rows + [row];
    forall i | 0 <= i < |rows| ensures LinkAt(all, i, signer) <==> LinkAt(rows, i, signer) {
      assert all[i] == rows[i];
    }
    assert LinkAt(all, |rows|, signer) <==> Links(HeadOf(rows), row, signer);
  }

  lemma {:induction false} LineStep(lines: seq<Line>, line: Line, signer: Option<nat>)
    ensures Rows(lines + [line]) == if line.Row? then Rows(lines) + [line] else Rows(lines)
    ensures Verifies(lines + [line], signer) <==>
      Verifies(lines, signer) && (line.Blank? || Links(HeadOf(Rows(lines)), line, signer))
  {
    var all := lines + [line];
    assert all[..|all| - 1] == lines && all[|all| - 1] == line;
    if line.Row? {
      ChainedStep(Rows(lines), line, signer);
    }
  }

  /** Cutting a verifying log anywhere leaves a verifying log. */
  lemma {:induction false} PrefixVerifies(lines: seq<Line>, n: nat, signer: Option<nat>)
    requires Verifies(lines, signer) && n <= |lines|
    ensures Verifies(lines[..n], signer) && Rows(lines[..n]) <= Rows(lines)
    decreases |lines| - n
  {
    if n == |lines| {
      assert lines[..n] == lines;
    } else {
      PrefixVerifies(lines, n + 1, signer);
      assert lines[..n + 1] == lines[..n] + [lines[n]];
      LineStep(lines[..n], lines[n], signer);
    }
  }

  function RowCount(h: Hash): nat {
    match h
    case Zero => 0
    case Sha(previous, _) => 1 + RowCount(previous)
  }

  /** The head counts the rows. */
  lemma {:induction false} HeadDepth(rows: seq<Line>, n: nat, signer: Option<nat>)
    requires Chained(rows, signer) && n <= |rows|
    ensures RowCount(HeadAt(rows, n)) == n
  {
    if n > 0 {
      HeadDepth(rows, n - 1, signer);
      assert LinkAt(rows, n - 1, signer);
    }
  }

  /** The same body and hash and, where the log is signed, the same signature. */
  predicate Alike(row: Line, row': Line, signer: Option<nat>) {
    row.Row? && row'.Row? && row.body == row'.body && row.hash == row'.hash && (signer.Some? ==> row == row')
  }

  /** Rows with the same hash continue chains with the same head, and are the same. */
  lemma SameHashSameRow(h: Hash, row: Line, h': Hash, row': Line, signer: Option<nat>)
    requires Links(h, row, signer) && Links(h', row', signer) && row.hash == row'.hash
    ensures h == h' && Alike(row, row', signer)
  {
  }

  lemma {:induction false} SameHeadSameRows(a: seq<Line>, b: seq<Line>, n: nat, signer: Option<nat>)
    requires Chained(a, signer) && Chained(b, signer) && n <= |a| && n <= |b| && HeadAt(a, n) == HeadAt(b, n)
    ensures forall i | 0 <= i < n :: Alike(a[i], b[i], signer)
  {
    if n > 0 {
      LastLinks(a, n, signer);
      LastLinks(b, n, signer);
      SameHashSameRow(HeadAt(a, n - 1), a[n - 1], HeadAt(b, n - 1), b[n - 1], signer);
      SameHeadSameRows(a, b, n - 1, signer);
    }
  }

  lemma LastLinks(rows: seq<Line>, n: nat, signer: Option<nat>)
    requires Chained(rows, signer) && 0 < n <= |rows|
    ensures Links(HeadAt(rows, n - 1), rows[n - 1], signer) && rows[n - 1].hash == Some(HeadAt(rows, n))
  {
    assert LinkAt(rows, n - 1, signer);
  }

  /** The head determines the log: equal heads mean equal bodies and hashes row for row, and
      equal signatures as well where the log is signed. */
  lemma HeadDeterminesLog(a: seq<Line>, b: seq<Line>, signer: Option<nat>)
    requires Chained(a, signer) && Chained(b, signer) && HeadOf(a) == HeadOf(b)
    ensures |a| == |b| && forall i | 0 <= i < |a| :: Alike(a[i], b[i], signer)
    ensures signer.Some? ==> a == b
  {
    HeadDepth(a, |a|, signer);
    HeadDepth(b, |b|, signer);
    SameHeadSameRows(a, b, |a|, signer);
  }

  /** The signature on this row was issued for some row of the true log. */
  predicate Issued(row: Line, truth: seq<Line>) {
    exists j :: 0 <= j < |truth| && row.Row? && truth[j].Row? && truth[j].signature == row.signature
  }

  /** A linked row with an issued signature is a row of the true log. */
  lemma IssuedIsTrue(previous: Hash, row: Line, truth: seq<Line>, key: nat) returns (j: nat)
    requires Links(previous, row, Some(key)) && Chained(truth, Some(key)) && Issued(row, truth)
    ensures j < |truth| && truth[j] == row && HeadAt(truth, j) == previous
  {
    j :| 0 <= j < |truth| && truth[j].Row? && truth[j].signature == row.signature;
    assert LinkAt(truth, j, Some(key));
  }

  /** Truncation is the only change a signed log does not show: if nothing but the signatures
      issued for the true log is available, every log that verifies is a prefix of it. */
  lemma OnlyPrefixesVerify(rows: seq<Line>, truth: seq<Line>, key: nat)
    requires Chained(rows, Some(key)) && Chained(truth, Some(key))
    requires forall i | 0 <= i < |rows| :: Issued(rows[i], truth)
    ensures rows <= truth
  {
    if rows != [] {
      var n := |rows| - 1;
      assert LinkAt(rows, n, Some(key));
      var j := IssuedIsTrue(HeadAt(rows, n), rows[n], truth, key);
      HeadDepth(rows, n, Some(key));
      HeadDepth(truth, j, Some(key));
      SameHeadSameRows(rows, truth, n, Some(key));
    }
  }

  datatype Event = Event(timestamp: string, eventType: string, payload: string)

  /** The row an append writes after the head `previous`. */
  function RowAfter(previous: Hash, event: Event, signer: Option<nat>): (row: Line)
    ensures Links(previous, row, signer)
  {
    var body :=
      Body(Some(previous),
           map["timestamp" := event.timestamp, "event_type" := event.eventType, "payload" := event.payload]);
    var hash := Sha(previous, body);
    Row(body, Some(hash), if signer.Some? then Some(Signed(signer.value, body, hash)) else None)
  }

  function Extended(lines: seq<Line>, event: Event, signer: Option<nat>): (r: seq<Line>)
    ensures Verifies(lines, signer) ==> Verifies(r, signer)
    ensures |Rows(r)| == |Rows(lines)| + 1
    ensures Some(HeadOf(Rows(r))) == RowAfter(HeadOf(Rows(lines)), event, signer).hash
  {
    LineStep(lines, RowAfter(HeadOf(Rows(lines)), event, signer), signer);
    lines + [RowAfter(HeadOf(Rows(lines)), event, signer)]
  }

  /** What undisturbed appends make of an empty log. */
  function Written(events: seq<Event>, signer: Option<nat>): seq<Line> {
    if events == [] then [] else Extended(Written(events[..|events| - 1], signer), events[|events| - 1], signer)
  }

  /** Any run of appends verifies, with one row for each event, and its head is the hash that the
      last append returned. */
  lemma {:induction false} AppendsVerify(events: seq<Event>, signer: Option<nat>)
    ensures Verifies(Written(events, signer), signer) && |Rows(Written(events, signer))| == |events|
    ensures events != [] ==>
      var before := Written(events[..|events| - 1], signer);
      Some(HeadOf(Rows(Written(events, signer)))) == RowAfter(HeadOf(Rows(before)), events[|events| - 1], signer).hash
  {
    if events != [] {
      AppendsVerify(events[..|events| - 1], signer);
    }
  }

  lemma SameHashSameEvent(h: Hash, e: Event, h': Hash, e': Event, signer: Option<nat>)
    requires RowAfter(h, e, signer).hash == RowAfter(h', e', signer).hash
    ensures h == h' && e == e'
  {
    var fields, fields' := RowAfter(h, e, signer).body.fields, RowAfter(h', e', signer).body.fields;
    assert fields["timestamp"] == e.timestamp && fields'["timestamp"] == e'.timestamp;
    assert fields["event_type"] == e.eventType && fields'["event_type"] == e'.eventType;
    assert fields["payload"] == e.payload && fields'["payload"] == e'.payload;
  }

  lemma SameHeadSameStep(l: seq<Line>, e: Event, l': seq<Line>, e': Event, signer: Option<nat>)
    requires HeadOf(Rows(Extended(l, e, signer))) == HeadOf(Rows(Extended(l', e', signer)))
    ensures e == e' && HeadOf(Rows(l)) == HeadOf(Rows(l'))
  {
    SameHashSameEvent(HeadOf(Rows(l)), e, HeadOf(Rows(l')), e', signer);
  }

  lemma WrittenDepth(events: seq<Event>, signer: Option<nat>)
    ensures RowCount(HeadOf(Rows(Written(events, signer)))) == |events|
  {
    AppendsVerify(events, signer);
    HeadDepth(Rows(Written(events, signer)), |Rows(Written(events, signer))|, signer);
  }

  /** Different histories never have the same head. */
  lemma {:induction false} HeadDeterminesEvents(a: seq<Event>, b: seq<Event>, signer: Option<nat>)
    requires HeadOf(Rows(Written(a, signer))) == HeadOf(Rows(Written(b, signer)))
    ensures a == b
  {
    WrittenDepth(a, signer);
    WrittenDepth(b, signer);
    if a != [] {
      var n := |a| - 1;
      var rest, rest' := a[..n], b[..n];
      SameHeadSameStep(Written(rest, signer), a[n], Written(rest', signer), b[n], signer);
      HeadDeterminesEvents(rest, rest', signer);
      LastAndRest(a, b);
    }
  }

  lemma LastAndRest(a: seq<Event>, b: seq<Event>)
    requires |a| == |b| > 0 && a[..|a| - 1] == b[..|b| - 1] && a[|a| - 1] == b[|b| - 1]
    ensures a == b
  {
    assert a == a[..|a| - 1] + [a[|a| - 1]] && b == b[..|b| - 1] + [b[|b| - 1]];
  }

  /** A piece of text written at the end of the file: on a line of its own, unless the last
      line lacks its newline. White space before a row does no harm; a row before it does. */
  function Glue(lines: seq<Line>, terminated: bool, piece: Line): (r: seq<Line>) {
    if terminated || lines == [] then lines + [piece]
    else lines[..|lines| - 1] + [if lines[|lines| - 1].Blank? then piece else Malformed]
  }

  /** New text starts on a line of its own, or after white space only. */
  predicate FreshLine(lines: seq<Line>, terminated: bool) {
    terminated || lines == [] || lines[|lines| - 1].Blank?
  }

  lemma {:induction false} GlueStep(lines: seq<Line>, terminated: bool, row: Line, signer: Option<nat>)
    requires Verifies(lines, signer) && Links(HeadOf(Rows(lines)), row, signer)
    ensures Verifies(Glue(lines, terminated, row), signer) <==> FreshLine(lines, terminated)
    ensures FreshLine(lines, terminated) ==> Rows(Glue(lines, terminated, row)) == Rows(lines) + [row]
    ensures !Verifies(Glue(lines, terminated, Malformed), signer)
  {
    var n := |lines| - 1;
    if terminated || lines == [] {
      LineStep(lines, row, signer);
      LineStep(lines, Malformed, signer);
    } else {
      assert lines == lines[..n] + [lines[n]];
      LineStep(lines[..n], lines[n], signer);
      LineStep(lines[..n], row, signer);
      LineStep(lines[..n], Malformed, signer);
    }
  }

  datatype FileText = FileText(lines: seq<Line>, terminated: bool)

  /** What a write of a row leaves in the file. */
  function Put(lines: seq<Line>, terminated: bool, row: Line, writing: Writing): FileText {
    match writing
    case Nothing => FileText(lines, terminated)
    case Torn => FileText(Glue(lines, terminated, Malformed), false)
    case RowOnly => FileText(Glue(lines, terminated, row), false)
    case Whole => FileText(Glue(lines, terminated, row), true)
  }

  lemma PutStep(lines: seq<Line>, terminated: bool, row: Line, writing: Writing, signer: Option<nat>)
    requires Verifies(lines, signer) && Links(HeadOf(Rows(lines)), row, signer)
    requires Verifies(Glue(lines, terminated, row), signer) <==> FreshLine(lines, terminated)
    requires FreshLine(lines, terminated) ==> Rows(Glue(lines, terminated, row)) == Rows(lines) + [row]
    requires !Verifies(Glue(lines, terminated, Malformed), signer)
    ensures var t := Put(lines, terminated, row, writing);
      && (writing == Whole ==> (Verifies(t.lines, signer) <==> FreshLine(lines, terminated)))
      && (writing == Whole && FreshLine(lines, terminated) ==>
        Some(HeadOf(Rows(t.lines))) == row.hash && |Rows(t.lines)| == |Rows(lines)| + 1)
      && (t.lines != lines ==>
        (Verifies(t.lines, signer) <==> (writing == Whole || writing == RowOnly) && FreshLine(lines, terminated)))
  {
  }

  /** A write that loses only its newline leaves a log that verifies, and the next append,
      which reports success, leaves one that does not. */
  lemma {:induction false} LostNewline(lines: seq<Line>, first: Event, second: Event, signer: Option<nat>)
    requires Verifies(lines, signer)
    ensures var torn := Glue(lines, true, RowAfter(HeadOf(Rows(lines)), first, signer));
      Verifies(torn, signer) && !Verifies(Glue(torn, false, RowAfter(HeadOf(Rows(torn)), second, signer)), signer)
  {
    var row := RowAfter(HeadOf(Rows(lines)), first, signer);
    GlueStep(lines, true, row, signer);
    GlueStep(lines + [row], false, RowAfter(HeadOf(Rows(lines + [row])), second, signer), signer);
  }

  /** Accepts exactly the verifying logs, with their length and head, and otherwise names the
      first line that breaks the chain. */
  method CheckLines(lines: seq<Line>, signer: Option<nat>) returns (r: Checked)
    ensures r.Verified? <==> Verifies(lines, signer)
    ensures r.Verified? ==> r.count == |Rows(lines)| && r.head == HeadOf(Rows(lines))
    ensures r.Broken? ==>
      1 <= r.line <= |lines| && Verifies(lines[..r.line - 1], signer) && !Verifies(lines[..r.line], signer)
  {
    var previous, count, n := Zero, 0, 0;
    ghost var done := [];
    while n < |lines|
      invariant 0 <= n <= |lines| && done == lines[..n] && Verifies(done, signer)
      invariant count == |Rows(done)| && previous == HeadOf(Rows(done))
    {
      var line := lines[n];
      LineStep(done, line, signer);
      done := done + [line];
      assert done == lines[..n + 1];
      if line != Blank {
        if !Links(previous, line, signer) {
          PrefixFails(lines, n + 1, signer);
          return Broken(n + 1);
        }
        previous, count := line.hash.value, count + 1;
      }
      n := n + 1;
    }
    assert done == lines;
    r := Verified(count, previous);
  }

  lemma PrefixFails(lines: seq<Line>, n: nat, signer: Option<nat>)
    requires n <= |lines| && !Verifies(lines[..n], signer)
    ensures !Verifies(lines, signer)
  {
    if Verifies(lines, signer) { PrefixVerifies(lines, n, signer); }
  }

  class AuditLog {
    const signer: Option<nat>
    var lines: seq<Line>
    var terminated: bool

    /** The log over a file as found; Open is what refuses a corrupt one. */
    constructor (signer: Option<nat>, lines: seq<Line>, terminated: bool)
      ensures this.signer == signer && this.lines == lines && this.terminated == terminated
    {
      this.signer, this.lines, this.terminated := signer, lines, terminated;
    }

    /** A broker never starts on a chain that does not verify. */
    static method Open(signer: Option<nat>, lines: seq<Line>, terminated: bool) returns (log: AuditLog?)
      ensures log != null <==> Verifies(lines, signer)
      ensures log != null ==> fresh(log) && log.lines == lines && log.terminated == terminated && log.signer == signer
    {
      var found := new AuditLog(signer, lines, terminated);
      var r := found.VerifyUnlocked();
      log := if r.Verified? then found else null;
    }

    /** Accepts exactly the verifying logs, with their length and head, and otherwise names the
        first line that breaks the chain. */
    method VerifyUnlocked() returns (r: Checked)
      ensures r.Verified? <==> Verifies(lines, signer)
      ensures r.Verified? ==> r.count == |Rows(lines)| && r.head == HeadOf(Rows(lines))
      ensures r.Broken? ==>
        1 <= r.line <= |lines| && Verifies(lines[..r.line - 1], signer) && !Verifies(lines[..r.line], signer)
    {
      r := CheckLines(lines, signer);
    }

    /** Refuses a blank event type and a corrupt chain, and extends any other log by one linked
        row. The one thing it does not check is that the file ends with a newline: the log it
        leaves verifies if and only if the row found a fresh line. */
    method Append(event: Event, writing: Writing) returns (r: Option<Hash>)
      modifies this
      ensures r.Some? <==> !IsBlank(event.eventType) && old(Verifies(lines, signer)) && writing == Whole
      ensures r.Some? ==>
        lines == Glue(old(lines), old(terminated), RowAfter(HeadOf(Rows(old(lines))), event, signer)) && terminated
      ensures r.Some? ==> (Verifies(lines, signer) <==> FreshLine(old(lines), old(terminated)))
      ensures r.Some? && FreshLine(old(lines), old(terminated)) ==>
        HeadOf(Rows(lines)) == r.value && |Rows(lines)| == |Rows(old(lines))| + 1
      ensures IsBlank(event.eventType) || !old(Verifies(lines, signer)) || writing == Nothing ==>
        lines == old(lines) && terminated == old(terminated)
      ensures r.None? && lines != old(lines) ==> !terminated
      ensures r.None? && lines != old(lines) ==>
        (Verifies(lines, signer) <==> writing == RowOnly && FreshLine(old(lines), old(terminated)))
    {
      if IsBlank(event.eventType) { return None; }
      var checked := VerifyUnlocked();
      if checked.Broken? { return None; }
      var row := RowAfter(checked.head, event, signer);
      GlueStep(lines, terminated, row, signer);
      PutStep(lines, terminated, row, writing, signer);
      var written := Put(lines, terminated, row, writing);
      lines, terminated := written.lines, written.terminated;
      r := if writing == Whole then row.hash else None;
    }
  }
}
