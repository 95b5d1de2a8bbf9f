/** The launch recovery journal kept in browser storage, and the advice read from it. */
module LaunchJournal {
  import opened Wrappers

  datatype JournalState =
    | Prepared | AwaitingApproval | Broadcasting | Submitted | Confirmed | VerificationPending
    | RegistrationPending | Completed | Failed | Cancelled | Unknown

  datatype Entry = Entry(state: JournalState, step: nat, signature: Option<string>)

  datatype Row = Row(id: string, state: JournalState, signature: Option<string>, events: seq<Entry>)

  const MAX_EVENTS: nat := 60
  const MAX_ROWS: nat := 50

  function Last<T>(s: seq<T>, n: nat): (r: seq<T>)
    ensures |r| == if |s| < n then |s| else n
  {
    if |s| <= n then s else s[|s| - n..]
  }

  /** The row as it stands, or a new one. */
  function Prior(rows: seq<Row>, id: string): Row {
    if rows == [] then Row(id, Prepared, None, [])
    else if rows[0].id == id then rows[0]
    else Prior(rows[1..], id)
  }

  function Without(rows: seq<Row>, id: string): seq<Row> {
    if rows == [] then []
    else (if rows[0].id == id then [] else [rows[0]]) + Without(rows[1..], id)
  }

  function Updated(prior: Row, e: Entry): Row {
    Row(prior.id, e.state, if e.signature.Some? then e.signature else prior.signature,
        Last(prior.events + [e], MAX_EVENTS))
  }

  /** Recording moves the launch's row to the end; the oldest rows give way. */
  function Recorded(rows: seq<Row>, id: string, e: Entry): seq<Row> {
    Last(Without(rows, id) + [Updated(Prior(rows, id).(id := id), e)], MAX_ROWS)
  }

  lemma {:induction false} PriorSkips(rows: seq<Row>, tail: seq<Row>, id: string)
    requires forall i :: 0 <= i < |rows| ==> rows[i].id != id
    ensures Prior(rows + tail, id) == Prior(tail, id)
  {
    if rows == [] {
      assert rows + tail == tail;
    } else {
      assert (rows + tail)[0] == rows[0] && (rows + tail)[1..] == rows[1..] + tail;
      PriorSkips(rows[1..], tail, id);
    }
  }

  lemma {:induction false} WithoutHasNone(rows: seq<Row>, id: string)
    ensures forall i :: 0 <= i < |Without(rows, id)| ==> Without(rows, id)[i].id != id
  {
    if rows != [] {
      WithoutHasNone(rows[1..], id);
    }
  }

  /** What was just recorded is what the next read finds, however full the journal is. */
  lemma {:induction false} RecordedIsFound(rows: seq<Row>, id: string, e: Entry)
    ensures Prior(Recorded(rows, id, e), id) == Updated(Prior(rows, id).(id := id), e)
  {
    var others, row := Without(rows, id), Updated(Prior(rows, id).(id := id), e);
    WithoutHasNone(rows, id);
    var kept := if |others| + 1 <= MAX_ROWS then others else others[|others| + 1 - MAX_ROWS..];
    assert Recorded(rows, id, e) == kept + [row];
    PriorSkips(kept, [row], id);
  }

  datatype Advice = Registered | OutcomeUncertain | VerifyMint | EarlierStepConfirmed | NoConfirmedOutcome

  function Recovery(row: Row): Advice {
    if row.state == Completed then Registered
    else if row.state in {Broadcasting, Submitted, Unknown} then OutcomeUncertain
    else if row.state in {Confirmed, VerificationPending, RegistrationPending} then VerifyMint
    else if exists i :: 0 <= i < |row.events| && row.events[i].state == Confirmed then EarlierStepConfirmed
    else NoConfirmedOutcome
  }

  class Journal {
    var rows: seq<Row>

    constructor (rows: seq<Row>)
      ensures this.rows == rows
    {
      this.rows := rows;
    }

    /** Records an event, or reports that storage refused it. */
    method RecordLaunchEvent(id: string, e: Entry, storageOk: bool) returns (accepted: bool)
      modifies this
      ensures accepted == storageOk
      ensures rows == if storageOk then Recorded(old(rows), id, e) else old(rows)
    {
      var prior := Prior(rows, id).(id := id);
      var next := Updated(prior, e);
      if storageOk {
        rows := Last(Without(rows, id) + [next], MAX_ROWS);
      }
      accepted := storageOk;
    }
  }

  // ----- the journal, row by row

  /** The first row of this launch is at `i`. */
  predicate FirstAt(rows: seq<Row>, id: string, i: nat) {
    i < |rows| && rows[i].id == id && forall j :: 0 <= j < i ==> rows[j].id != id
  }

  predicate Absent(rows: seq<Row>, id: string) {
    forall j :: 0 <= j < |rows| ==> rows[j].id != id
  }

  lemma {:induction false} PriorIsFirst(rows: seq<Row>, id: string, i: nat)
    ensures FirstAt(rows, id, i) ==> Prior(rows, id) == rows[i]
    ensures Absent(rows, id) ==> Prior(rows, id) == Row(id, Prepared, None, [])
  {
    if rows != [] && rows[0].id != id {
      PriorIsFirst(rows[1..], id, if i == 0 then 0 else i - 1);
    }
  }

  lemma {:induction false} WithoutKeeps(rows: seq<Row>, id: string)
    ensures |Without(rows, id)| <= |rows|
    ensures forall r :: r in Without(rows, id) <==> r in rows && r.id != id
    ensures Absent(rows, id) ==> Without(rows, id) == rows
  {
    if rows != [] {
      WithoutKeeps(rows[1..], id);
      assert rows == [rows[0]] + rows[1..];
    }
  }

  lemma {:induction false} WithoutOne(rows: seq<Row>, id: string, i: nat)
    requires i < |rows| && rows[i].id == id && forall j :: 0 <= j < |rows| && j != i ==> rows[j].id != id
    ensures Without(rows, id) == rows[..i] + rows[i + 1..]
  {
    var rest := rows[1..];
    if i == 0 {
      WithoutKeeps(rest, id);
    } else {
      WithoutOne(rest, id, i - 1);
      assert rows[..i] == [rows[0]] + rest[..i - 1] && rest[i..] == rows[i + 1..];
    }
  }

  /** `after` is the row `before` with this entry: its state, its signature if it has one, and its place among the last sixty. */
  predicate Adds(before: Row, id: string, e: Entry, after: Row) {
    && after.id == id && after.state == e.state
    && after.signature == (if e.signature.None? then before.signature else e.signature)
    && after.events == (if |before.events| < 60 then before.events + [e] else before.events[|before.events| - 59..] + [e])
  }

  /**
   Recording an event of a launch that has one row, at `i`, in a journal of up to fifty rows
   takes that row out, leaves the others in their order, and puts it, with the event, at the end.
   */
  lemma {:induction false} RecordsItsRow(rows: seq<Row>, id: string, e: Entry, i: nat)
    requires i < |rows| <= 50 && rows[i].id == id && forall j :: 0 <= j < |rows| && j != i ==> rows[j].id != id
    ensures var after := Recorded(rows, id, e);
      && |after| == |rows| && after[..|rows| - 1] == rows[..i] + rows[i + 1..]
      && Adds(rows[i], id, e, after[|rows| - 1])
  {
    WithoutOne(rows, id, i);
    PriorIsFirst(rows, id, i);
    EntryAdded(rows[i], id, e);
  }

  /** The first event of a launch adds a row at the end; from fifty rows on the oldest ones give way. */
  lemma {:induction false} RecordsNewRow(rows: seq<Row>, id: string, e: Entry)
    requires Absent(rows, id)
    ensures var after, kept := Recorded(rows, id, e), if |rows| < 50 then rows else rows[|rows| - 49..];
      && after == kept + [Row(id, e.state, e.signature, [e])]
  {
    WithoutKeeps(rows, id);
    PriorIsFirst(rows, id, 0);
    EntryAdded(Row(id, Prepared, None, []), id, e);
    assert [] + [e] == [e];
  }

  lemma EntryAdded(before: Row, id: string, e: Entry)
    ensures Adds(before, id, e, Updated(before.(id := id), e))
  {
  }

  /** What the advice says about the row it is read from. */
  lemma AdviceByState(row: Row)
    ensures Recovery(row) == Registered <==> row.state == Completed
    ensures Recovery(row) == OutcomeUncertain <==>
      row.state == Broadcasting || row.state == Submitted || row.state == Unknown
    ensures Recovery(row) == VerifyMint <==>
      row.state == Confirmed || row.state == VerificationPending || row.state == RegistrationPending
    ensures Recovery(row) == EarlierStepConfirmed <==>
      && (row.state == Prepared || row.state == AwaitingApproval || row.state == Failed || row.state == Cancelled)
      && exists i :: 0 <= i < |row.events| && row.events[i].state == Confirmed
  {
  }
}
