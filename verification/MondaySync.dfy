/**
 Incremental sync of lead columns to the CRM board: only columns whose serialized value differs from
 the snapshot of the last update are sent. Columns are compared, and the board is observed, up to
 serialization; `dumps` serializes structured values and depends on the value only.
 */
module MondaySync {
  import opened Common

  type Column = string

  /** A column value: absent, plain text, or a structured value. */
  datatype Value<O> = Null | Text(s: string) | Structured(o: O)

  type Columns<O> = map<Column, Value<O>>
  type Snapshot = map<Column, string>

  /** What the board shows, and what the lead's snapshot says it shows. */
  datatype Sync = Sync(board: Snapshot, snapshot: Snapshot)

  const EXCLUDED: set<Column> := {
    "multiple_person_mm2kdy8q", "long_text_mm2k8vtc", "pulse_log_mm2kwmcn", "pulse_updated_mm2kcr4g" }

  function Serialize<O>(dumps: O -> string, v: Value<O>): string {
    match v
    case Structured(o) => dumps(o)
    case Null => ""
    case Text(s) => s
  }

  function SnapshotOf<O>(dumps: O -> string, columns: Columns<O>): Snapshot {
    map c | c in columns :: Serialize(dumps, columns[c])
  }

  function Recorded(snapshot: Snapshot, c: Column): string {
    if c in snapshot then snapshot[c] else ""
  }

  /** The columns that differ from the snapshot; all of them when there is no snapshot. */
  function Diff<O>(dumps: O -> string, snapshot: Snapshot, columns: Columns<O>): Columns<O> {
    if snapshot == map[] then columns
    else map c | c in columns && Serialize(dumps, columns[c]) != Recorded(snapshot, c) :: columns[c]
  }

  /** `_diff_columns`. */
  method DiffColumns<O>(dumps: O -> string, snapshot: Snapshot, columns: Columns<O>) returns (changed: Columns<O>)
    ensures changed == Diff(dumps, snapshot, columns)
  {
    if snapshot == map[] {
      return columns;
    }
    changed := map[];
    var rest := columns.Keys;
    while rest != {}
      invariant rest <= columns.Keys
      invariant changed == map c | c in columns && c !in rest
                             && Serialize(dumps, columns[c]) != Recorded(snapshot, c) :: columns[c]
      decreases rest
    {
      var c :| c in rest;
      if Recorded(snapshot, c) != Serialize(dumps, columns[c]) {
        changed := changed[c := columns[c]];
      }
      rest := rest - {c};
    }
  }

  /** The update request, without unnamed and absent columns and without the ones kept by hand. */
  function FullPayload<O>(base: Columns<O>, optional: Columns<O>): Columns<O> {
    var request := base + optional;
    map c | c in request && c != "" && !request[c].Null? && c !in EXCLUDED :: request[c]
  }

  /** What a column write does to the board. */
  function Write<O>(dumps: O -> string, board: Snapshot, columns: Columns<O>): Snapshot {
    board + SnapshotOf(dumps, columns)
  }

  /** On its keys the snapshot is what the board shows. */
  ghost predicate Agrees(board: Snapshot, snapshot: Snapshot) {
    forall c :: c in snapshot ==> c in board && board[c] == snapshot[c]
  }

  /** A column new to a non-empty snapshot that arrives empty: the diff takes it for unchanged. */
  ghost predicate BlankNewcomer<O>(dumps: O -> string, snapshot: Snapshot, columns: Columns<O>, c: Column) {
    snapshot != map[] && c in columns && c !in snapshot && Serialize(dumps, columns[c]) == ""
  }

  /** Every blank newcomer is blank on the board already. */
  ghost predicate BlanksShow<O>(dumps: O -> string, s: Sync, columns: Columns<O>) {
    forall c :: c in columns && BlankNewcomer(dumps, s.snapshot, columns, c) ==> c in s.board && s.board[c] == ""
  }

  lemma WrittenColumn<O>(dumps: O -> string, board: Snapshot, columns: Columns<O>, c: Column)
    ensures c in Write(dumps, board, columns) <==> c in board || c in columns
    ensures c in columns ==> Write(dumps, board, columns)[c] == Serialize(dumps, columns[c])
    ensures c in board && c !in columns ==> Write(dumps, board, columns)[c] == board[c]
  {
  }

  /** Sending the diff leaves the board that sending everything would leave, exactly when every blank
      newcomer is blank on the board already. */
  lemma IncrementalIsFullIff<O>(dumps: O -> string, board: Snapshot, snapshot: Snapshot, columns: Columns<O>)
    requires Agrees(board, snapshot)
    ensures Write(dumps, board, Diff(dumps, snapshot, columns)) == Write(dumps, board, columns) <==>
            BlanksShow(dumps, Sync(board, snapshot), columns)
  {
    var sent, full := Write(dumps, board, Diff(dumps, snapshot, columns)), Write(dumps, board, columns);
    if BlanksShow(dumps, Sync(board, snapshot), columns) {
      forall c
        ensures c in sent <==> c in full
        ensures c in sent ==> sent[c] == full[c]
      {
        WrittenColumn(dumps, board, Diff(dumps, snapshot, columns), c);
        WrittenColumn(dumps, board, columns, c);
      }
    } else {
      var c :| c in columns && BlankNewcomer(dumps, snapshot, columns, c) && !(c in board && board[c] == "");
      WrittenColumn(dumps, board, Diff(dumps, snapshot, columns), c);
      WrittenColumn(dumps, board, columns, c);
    }
  }

  // ----- runs of updates

  datatype Outcome = Accepted | Rejected | OptionalRejected

  datatype Update<O> = Update(base: Columns<O>, optional: Columns<O>, outcome: Outcome)

  function WithoutExcluded<O>(columns: Columns<O>): Columns<O> {
    map c | c in columns && c !in EXCLUDED :: columns[c]
  }

  /** The update path of `upsert_lead`. A rejected request changes nothing; when the board refuses an
      optional column the base columns are sent instead, and the snapshot records everything. */
  function Upsert<O>(dumps: O -> string, s: Sync, u: Update<O>): Sync {
    var full := FullPayload(u.base, u.optional);
    var payload := Diff(dumps, s.snapshot, full);
    if payload.Keys == {} then s
    else
      match u.outcome
      case Rejected => s
      case Accepted => Sync(Write(dumps, s.board, payload), SnapshotOf(dumps, full))
      case OptionalRejected =>
        if u.optional.Keys == {} then s
        else Sync(Write(dumps, s.board, WithoutExcluded(u.base)), SnapshotOf(dumps, full))
  }

  /** The same requests with every column sent every time. */
  function FullUpsert<O>(dumps: O -> string, board: Snapshot, u: Update<O>): Snapshot {
    if u.outcome.Accepted? then Write(dumps, board, FullPayload(u.base, u.optional)) else board
  }

  /** An accepted update keeps the agreement and matches the full write exactly when every blank newcomer
      is blank on the board already. When it sends anything, the same condition decides the agreement alone. */
  lemma AcceptedUpdate<O>(dumps: O -> string, s: Sync, u: Update<O>)
    requires Agrees(s.board, s.snapshot) && u.outcome.Accepted?
    ensures var s', full := Upsert(dumps, s, u), FullPayload(u.base, u.optional);
            && (Agrees(s'.board, s'.snapshot) && s'.board == FullUpsert(dumps, s.board, u)
                <==> BlanksShow(dumps, s, full))
            && (Diff(dumps, s.snapshot, full) != map[] ==>
                (Agrees(s'.board, s'.snapshot) <==> BlanksShow(dumps, s, full)))
  {
    var full := FullPayload(u.base, u.optional);
    var payload := Diff(dumps, s.snapshot, full);
    IncrementalIsFullIff(dumps, s.board, s.snapshot, full);
    if payload == map[] {
      assert Write(dumps, s.board, payload) == s.board;
    } else {
      AgreementAfterSending(dumps, s, full);
    }
  }

  /** After sending the diff the new snapshot agrees with the board exactly when the blank newcomers show. */
  lemma AgreementAfterSending<O>(dumps: O -> string, s: Sync, full: Columns<O>)
    requires Agrees(s.board, s.snapshot)
    ensures Agrees(Write(dumps, s.board, Diff(dumps, s.snapshot, full)), SnapshotOf(dumps, full))
            <==> BlanksShow(dumps, s, full)
  {
    var payload := Diff(dumps, s.snapshot, full);
    var board, snapshot := Write(dumps, s.board, payload), SnapshotOf(dumps, full);
    forall c | c in full
      ensures (c in board && board[c] == snapshot[c]) <==>
              (BlankNewcomer(dumps, s.snapshot, full, c) ==> c in s.board && s.board[c] == "")
    {
      WrittenColumn(dumps, s.board, payload, c);
    }
    assert snapshot.Keys == full.Keys;
  }

  ghost predicate Clean<O>(dumps: O -> string, s: Sync, updates: seq<Update<O>>)
    decreases |updates|
  {
    updates == [] ||
    (!updates[0].outcome.OptionalRejected?
     && (updates[0].outcome.Accepted? ==> BlanksShow(dumps, s, FullPayload(updates[0].base, updates[0].optional)))
     && Clean(dumps, Upsert(dumps, s, updates[0]), updates[1..]))
  }

  ghost function UpsertAll<O>(dumps: O -> string, s: Sync, updates: seq<Update<O>>): Sync
    decreases |updates|
  {
    if updates == [] then s else UpsertAll(dumps, Upsert(dumps, s, updates[0]), updates[1..])
  }

  ghost function FullUpsertAll<O>(dumps: O -> string, board: Snapshot, updates: seq<Update<O>>): Snapshot
    decreases |updates|
  {
    if updates == [] then board else FullUpsertAll(dumps, FullUpsert(dumps, board, updates[0]), updates[1..])
  }

  /** Over any run of updates without the fallback, in which accepted blank newcomers are blank on the board
      already: the agreement is kept, and the board is the one a full sync of the same run would have left. */
  lemma {:induction false} IncrementalRefinesFull<O>(dumps: O -> string, s: Sync, updates: seq<Update<O>>)
    requires Agrees(s.board, s.snapshot) && Clean(dumps, s, updates)
    ensures var z := UpsertAll(dumps, s, updates);
            Agrees(z.board, z.snapshot) && z.board == FullUpsertAll(dumps, s.board, updates)
    decreases |updates|
  {
    if updates != [] {
      if updates[0].outcome.Accepted? {
        AcceptedUpdate(dumps, s, updates[0]);
      }
      IncrementalRefinesFull(dumps, Upsert(dumps, s, updates[0]), updates[1..]);
    }
  }

  /** After a payload was accepted, the same payload sends nothing. */
  lemma RepeatSendsNothing<O>(dumps: O -> string, s: Sync, u: Update<O>)
    requires u.outcome.Accepted?
    ensures Diff(dumps, Upsert(dumps, s, u).snapshot, FullPayload(u.base, u.optional)) == map[]
  {
    var full := FullPayload(u.base, u.optional);
    if full == map[] {
      assert Diff(dumps, s.snapshot, full) == map[];
    } else if Diff(dumps, s.snapshot, full) != map[] {
      var c :| c in full;
      assert c in SnapshotOf(dumps, full);
    }
  }

  /** The fallback drops columns the snapshot then claims: afterwards snapshot and board agree exactly
      when every column the fallback left out already had its new value on the board. */
  lemma FallbackAgreesIff<O>(dumps: O -> string, s: Sync, u: Update<O>)
    requires u.outcome.OptionalRejected? && u.optional != map[]
    requires Diff(dumps, s.snapshot, FullPayload(u.base, u.optional)) != map[]
    ensures var s' := Upsert(dumps, s, u);
            var full := FullPayload(u.base, u.optional);
            var sent := WithoutExcluded(u.base);
            Agrees(s'.board, s'.snapshot) <==>
            forall c :: c in full ==>
              if c in sent then Serialize(dumps, sent[c]) == Serialize(dumps, full[c])
              else c in s.board && s.board[c] == Serialize(dumps, full[c])
  {
    var s' := Upsert(dumps, s, u);
    var full, sent := FullPayload(u.base, u.optional), WithoutExcluded(u.base);
    forall c | c in full
      ensures (c in s'.board && s'.board[c] == s'.snapshot[c]) <==>
              if c in sent then Serialize(dumps, sent[c]) == Serialize(dumps, full[c])
              else c in s.board && s.board[c] == Serialize(dumps, full[c])
    {
      WrittenColumn(dumps, s.board, sent, c);
    }
    assert s'.snapshot.Keys == full.Keys;
  }

  // ----- single columns

  /** The value the lead asks for: an optional one wins over a base value of the same column. */
  function Wanted<O>(u: Update<O>, c: Column): Value<O> {
    if c in u.optional then u.optional[c] else if c in u.base then u.base[c] else Null
  }

  /** A named column with a value that the sync may write. */
  ghost predicate Syncable<O>(u: Update<O>, c: Column) {
    c != "" && c !in EXCLUDED && !Wanted(u, c).Null?
  }

  ghost predicate Shows(board: Snapshot, c: Column, text: string) {
    c in board && board[c] == text
  }

  /** Both boards show the same in this column, or neither has it. */
  ghost predicate SameColumn(board: Snapshot, other: Snapshot, c: Column) {
    (c in board <==> c in other) && (c in board ==> board[c] == other[c])
  }

  /** What an accepted update leaves in each column of the board: the wanted value wherever the column may be
      synced, and the old content in every other column, kept by hand or not asked for. Only a blank value for
      a column new to a non-empty snapshot is not written. */
  lemma AcceptedColumn<O>(dumps: O -> string, s: Sync, u: Update<O>, c: Column)
    requires Agrees(s.board, s.snapshot) && u.outcome.Accepted?
    ensures var board, text := Upsert(dumps, s, u).board, Serialize(dumps, Wanted(u, c));
            if Syncable(u, c) && !(text == "" && s.snapshot != map[] && c !in s.snapshot) then Shows(board, c, text)
            else SameColumn(board, s.board, c)
  {
    WrittenColumn(dumps, s.board, Diff(dumps, s.snapshot, FullPayload(u.base, u.optional)), c);
  }

  /** What an update leaves when the board refused an optional column: the base columns, except those kept by
      hand. */
  lemma FallbackColumn<O>(dumps: O -> string, s: Sync, u: Update<O>, c: Column)
    requires u.outcome.OptionalRejected? && Upsert(dumps, s, u) != s
    ensures var board := Upsert(dumps, s, u).board;
            if c in u.base && c !in EXCLUDED then Shows(board, c, Serialize(dumps, u.base[c]))
            else SameColumn(board, s.board, c)
  {
    WrittenColumn(dumps, s.board, WithoutExcluded(u.base), c);
  }

  /** An update sends something exactly when some syncable column differs from the snapshot, or there is none.
      Then, unless it is refused, the snapshot holds the wanted values of all syncable columns and no others. */
  lemma SnapshotColumn<O>(dumps: O -> string, s: Sync, u: Update<O>, c: Column)
    requires u.outcome.Accepted? || (u.outcome.OptionalRejected? && u.optional != map[])
    ensures var snapshot := Upsert(dumps, s, u).snapshot;
            if exists d :: Syncable(u, d) && (s.snapshot == map[] ||
                 Serialize(dumps, Wanted(u, d)) != Recorded(s.snapshot, d))
            then if Syncable(u, c) then Shows(snapshot, c, Serialize(dumps, Wanted(u, c))) else c !in snapshot
            else Upsert(dumps, s, u) == s
  {
    var full := FullPayload(u.base, u.optional);
    forall d
      ensures d in full <==> Syncable(u, d)
      ensures d in full ==> full[d] == Wanted(u, d)
    {
    }
    if d :| Syncable(u, d) && (s.snapshot == map[] || Serialize(dumps, Wanted(u, d)) != Recorded(s.snapshot, d)) {
      assert d in Diff(dumps, s.snapshot, full);
    } else {
      assert Diff(dumps, s.snapshot, full).Keys == {};
    }
  }

  // ----- the adapter

  class BoardItem {
    var columns: Snapshot

    constructor (columns: Snapshot)
      ensures this.columns == columns
    {
      this.columns := columns;
    }
  }

  class Lead {
    var mondayId: Option<string>
    var snapshot: Snapshot

    constructor (snapshot: Snapshot)
      ensures this.snapshot == snapshot && mondayId == None
    {
      this.snapshot, this.mondayId := snapshot, None;
    }
  }

  /** The update path for an existing item. */
  method UpdateLead<O>(dumps: O -> string, lead: Lead, item: BoardItem, itemId: string, u: Update<O>)
    returns (raised: bool)
    modifies lead, item
    ensures Sync(item.columns, lead.snapshot) == Upsert(dumps, Sync(old(item.columns), old(lead.snapshot)), u)
    ensures lead.mondayId == if raised then old(lead.mondayId) else Some(itemId)
    ensures raised ==> item.columns == old(item.columns) && lead.snapshot == old(lead.snapshot)
  {
    var full := FullPayload(u.base, u.optional);
    var payload := DiffColumns(dumps, lead.snapshot, full);
    if payload.Keys == {} {
      lead.mondayId := Some(itemId);
      return false;
    }
    match u.outcome {
      case Accepted => item.columns := Write(dumps, item.columns, payload);
      case Rejected => return true;
      case OptionalRejected =>
        if u.optional.Keys == {} {
          return true;
        }
        item.columns := Write(dumps, item.columns, WithoutExcluded(u.base));
    }
    lead.mondayId := Some(itemId);
    lead.snapshot := SnapshotOf(dumps, full);
    return false;
  }
}
