/** Transactions on one replica: optimistic edits, whole-snapshot merges, one-time initialisation. */
module ConfigStore {
  import opened Nodes
  import opened Versions
  import opened Tokens
  import opened Documents

  datatype Op =
    | Put(name: Bytes, schema: Word, value: Bytes, expected: string)
    | Merge(records: seq<Record>)
    | Init(records: seq<Record>)

  /** The token of the stored document, empty when there is none. */
  function CurrentToken(docs: Docs, name: Bytes): string {
    if name in docs then Token(name, docs[name].version) else ""
  }

  /** The record an edit would store, or why there is none. */
  function Draft(env: Env, docs: Docs, name: Bytes, schema: Word, value: Bytes): Outcome<Record> {
    if name in docs && schema < docs[name].version.schema then Rejected(SchemaRegression)
    else if name in docs && docs[name].version.revision == WORDS - 1 then Rejected(RevisionExhausted)
    else if |value| > MAX_VALUE then Rejected(TooLarge)
    else
      var revision: Word := if name in docs then docs[name].version.revision + 1 else 1;
      var r := Record(name, Version(schema, revision, env.sha(value)), value);
      match Validate(env, r)
      case Some(p) => Rejected(p)
      case None => Done(r)
  }

  function RowOf(r: Record): Row {
    Row(r.version, r.value)
  }

  ghost predicate Accepts(env: Env, docs: Docs, op: Op) {
    && Sound(env, docs)
    && match op
       case Put(name, schema, value, expected) =>
         && CurrentToken(docs, name) == expected && Draft(env, docs, name, schema, value).Done?
         && Sound(env, docs[name := RowOf(Draft(env, docs, name, schema, value).value)])
       case Merge(records) => Acceptable(env, records) && Sound(env, Merged(docs, records))
       case Init(records) =>
         && records != [] && Acceptable(env, records) && docs == map[]
         && Sound(env, Merged(docs, records))
  }

  /** A rejected operation leaves the table alone. */
  ghost function After(env: Env, docs: Docs, op: Op): Docs {
    if !Accepts(env, docs, op) then docs
    else
      match op
      case Put(name, schema, value, _) => docs[name := RowOf(Draft(env, docs, name, schema, value).value)]
      case Merge(records) => Merged(docs, records)
      case Init(records) => Merged(docs, records)
  }

  /** What the database makes of a commit; one whose result is lost has taken effect or not. */
  datatype Commitment = Certain | Uncertain(applied: bool)

  class Store {
    const env: Env
    var docs: Docs

    constructor (env: Env)
      ensures this.env == env && docs == map[]
    {
      this.env := env;
      docs := map[];
    }

    /** Commits a changed table if it is still sound, otherwise rolls back; nothing is committed
        when nothing changed. */
    method Commit(next: Docs, changed: bool, commitment: Commitment) returns (problem: Option<Problem>)
      requires changed <==> next != docs
      requires Sound(env, docs)
      modifies this
      ensures problem.None? <==> Sound(env, next) && (commitment.Certain? || next == old(docs))
      ensures Sound(env, next) && problem.Some? ==> problem == Some(OutcomeUnknown)
      ensures docs == if Sound(env, next) && commitment != Uncertain(false) then next else old(docs)
    {
      if !changed { return None; }
      var r := ReadRecords(env, next);
      if r.Rejected? { return Some(r.problem); }
      if commitment != Uncertain(false) { docs := next; }
      return if commitment.Certain? then None else Some(OutcomeUnknown);
    }

    method PutDocument(name: Bytes, schema: Word, value: Bytes, expected: string, commitment: Commitment)
      returns (r: Outcome<Record>)
      modifies this
      ensures docs == if commitment == Uncertain(false) then old(docs)
        else After(env, old(docs), Put(name, schema, value, expected))
      ensures r.Done? <==> Accepts(env, old(docs), Put(name, schema, value, expected)) && commitment.Certain?
      ensures r.Done? ==> r == Draft(env, old(docs), name, schema, value)
      ensures Accepts(env, old(docs), Put(name, schema, value, expected)) && !commitment.Certain? ==>
        r == Rejected(OutcomeUnknown)
      ensures Sound(env, old(docs)) && CurrentToken(old(docs), name) != expected ==> r == Rejected(Conflict)
      ensures Sound(env, old(docs)) && CurrentToken(old(docs), name) == expected ==>
                Draft(env, old(docs), name, schema, value).Rejected? ==> r == Draft(env, old(docs), name, schema, value)
    {
      var existing := ReadRecords(env, docs);
      if existing.Rejected? { return Rejected(existing.problem); }
      if CurrentToken(docs, name) != expected { return Rejected(Conflict); }
      r := Draft(env, docs, name, schema, value);
      if r.Rejected? { return r; }
      var next, changed := WriteRecords(docs, [r.value]);
      DraftIsNewer(env, docs, name, schema, value);
      var problem := Commit(next, changed, commitment);
      if problem.Some? { return Rejected(problem.value); }
    }

    method MergeRecords(records: seq<Record>, commitment: Commitment) returns (problem: Option<Problem>)
      modifies this
      ensures docs == if commitment == Uncertain(false) then old(docs) else After(env, old(docs), Merge(records))
      ensures problem.None? <==>
                && Accepts(env, old(docs), Merge(records))
                && (commitment.Certain? || After(env, old(docs), Merge(records)) == old(docs))
      ensures Accepts(env, old(docs), Merge(records)) && problem.Some? ==> problem == Some(OutcomeUnknown)
    {
      problem := CheckRecords(env, records);
      if problem.Some? { return; }
      var existing := ReadRecords(env, docs);
      if existing.Rejected? { return Some(existing.problem); }
      var next, changed := WriteRecords(docs, records);
      problem := Commit(next, changed, commitment);
    }

    method Initialize(records: seq<Record>, commitment: Commitment) returns (problem: Option<Problem>)
      modifies this
      ensures docs == if commitment == Uncertain(false) then old(docs) else After(env, old(docs), Init(records))
      ensures problem.None? <==>
                && Accepts(env, old(docs), Init(records))
                && (commitment.Certain? || After(env, old(docs), Init(records)) == old(docs))
      ensures Accepts(env, old(docs), Init(records)) && problem.Some? ==> problem == Some(OutcomeUnknown)
    {
      if records == [] { return Some(NothingGiven); }
      problem := CheckRecords(env, records);
      if problem.Some? { return; }
      var existing := ReadRecords(env, docs);
      if existing.Rejected? { return Some(existing.problem); }
      if docs != map[] { return Some(AlreadyExists); }
      var next, changed := WriteRecords(docs, records);
      problem := Commit(next, changed, commitment);
    }
  }

  // ---- when an edit is made, and what it stores ------------------------------------------------

  /** What the caller has to get right: a valid name, a positive schema, a value within bounds, and, for a
      stored document, a schema no lower than its own while revisions are left. */
  predicate Editable(env: Env, docs: Docs, name: Bytes, schema: Word, value: Bytes) {
    && 0 < |name| <= MAX_NAME && env.legal(name) && schema > 0 && |value| <= MAX_VALUE
    && (name in docs ==> schema >= docs[name].version.schema && docs[name].version.revision < WORDS - 1)
  }

  /** The row an edit stores: the next revision, or the first. */
  function EditedRow(env: Env, docs: Docs, name: Bytes, schema: Word, value: Bytes): Row
    requires name in docs ==> docs[name].version.revision < WORDS - 1
  {
    Row(Version(schema, if name in docs then docs[name].version.revision + 1 else 1, env.sha(value)), value)
  }

  /** A draft is made exactly for an edit the caller got right, and otherwise the first thing wrong is named. */
  lemma DraftIff(env: Env, docs: Docs, name: Bytes, schema: Word, value: Bytes)
    ensures var draft := Draft(env, docs, name, schema, value);
            && (draft.Done? <==> Editable(env, docs, name, schema, value))
            && (draft.Done? ==>
                  draft.value.name == name && RowOf(draft.value) == EditedRow(env, docs, name, schema, value))
    ensures var draft := Draft(env, docs, name, schema, value);
            var found := name in docs;
            && (found && schema < docs[name].version.schema ==> draft == Rejected(SchemaRegression))
            && (found && schema >= docs[name].version.schema && docs[name].version.revision == WORDS - 1 ==>
                  draft == Rejected(RevisionExhausted))
            && ((found ==> schema >= docs[name].version.schema && docs[name].version.revision < WORDS - 1) ==>
                  && (|value| > MAX_VALUE ==> draft == Rejected(TooLarge))
                  && (|value| <= MAX_VALUE && draft.Rejected? ==> draft == Rejected(InvalidRecord)))
  {
  }

  /** On a sound table an edit goes through exactly when the token is current, the caller got it right and the
      edited table is sound; it then replaces that document and no other. */
  lemma EditIff(env: Env, docs: Docs, name: Bytes, schema: Word, value: Bytes, expected: string)
    requires Sound(env, docs)
    ensures var op := Put(name, schema, value, expected);
            && (Accepts(env, docs, op) <==>
                  && expected == CurrentToken(docs, name) && Editable(env, docs, name, schema, value)
                  && Sound(env, docs[name := EditedRow(env, docs, name, schema, value)]))
            && (Accepts(env, docs, op) ==>
                  After(env, docs, op) == docs[name := EditedRow(env, docs, name, schema, value)])
            && (!Accepts(env, docs, op) ==> After(env, docs, op) == docs)
  {
    DraftIff(env, docs, name, schema, value);
  }

  /** A document can be edited again with the token of the row just stored. */
  lemma EditsFollowEachOther(env: Env, docs: Docs, name: Bytes, schema: Word, value: Bytes, expected: string,
                             schema': Word, value': Bytes)
    requires Accepts(env, docs, Put(name, schema, value, expected)) && schema' >= schema && |value'| <= MAX_VALUE
    requires name in docs ==> docs[name].version.revision < WORDS - 2
    ensures var after := After(env, docs, Put(name, schema, value, expected));
            && name in after && Editable(env, after, name, schema', value')
            && EditedRow(env, after, name, schema', value').version.revision == after[name].version.revision + 1
            && (Sound(env, after[name := EditedRow(env, after, name, schema', value')]) ==>
                  Accepts(env, after, Put(name, schema', value', Token(name, after[name].version))))
  {
    EditIff(env, docs, name, schema, value, expected);
    var after := After(env, docs, Put(name, schema, value, expected));
    EditIff(env, after, name, schema', value', Token(name, after[name].version));
  }

  // ---- versions only rise ---------------------------------------------------------------------

  /** The edited record beats the stored one, so the conditional upsert always stores it. */
  lemma DraftIsNewer(env: Env, docs: Docs, name: Bytes, schema: Word, value: Bytes)
    requires Draft(env, docs, name, schema, value).Done?
    ensures var r := Draft(env, docs, name, schema, value).value;
            && Validate(env, r).None? && r.name == name && r.value == value
            && Newer(docs, r) && Merged(docs, [r]) == docs[name := RowOf(r)]
            && (name in docs ==> Compare(r.version, docs[name].version) > 0)
  {
    var r := Draft(env, docs, name, schema, value).value;
    if name in docs { EncodePreservesOrder(r.version, docs[name].version); }
    assert [r][..0] == [];
  }

  lemma AfterRises(env: Env, docs: Docs, op: Op)
    ensures Leq(docs, After(env, docs, op))
    ensures op.Put? && Accepts(env, docs, op) ==>
              op.name in After(env, docs, op) &&
              (op.name in docs ==> Compare(After(env, docs, op)[op.name].version, docs[op.name].version) > 0)
    ensures Sound(env, docs) ==> Sound(env, After(env, docs, op))
  {
    LeqSelf(docs);
    if Accepts(env, docs, op) {
      match op
      case Put(name, schema, value, _) =>
        DraftIsNewer(env, docs, name, schema, value);
      case Merge(records) => MergedIsLeast(docs, records);
      case Init(records) => MergedIsLeast(docs, records);
    }
  }

  ghost function AfterAll(env: Env, docs: Docs, ops: seq<Op>): Docs {
    if ops == [] then docs else After(env, AfterAll(env, docs, ops[..|ops| - 1]), ops[|ops| - 1])
  }

  /** No document of the replica ever goes back to an older version. */
  lemma {:induction false} RunRises(env: Env, docs: Docs, ops: seq<Op>, i: nat, j: nat)
    requires i <= j <= |ops|
    ensures Leq(AfterAll(env, docs, ops[..i]), AfterAll(env, docs, ops[..j]))
    decreases j
  {
    if i == j {
      LeqSelf(AfterAll(env, docs, ops[..i]));
    } else {
      RunRises(env, docs, ops, i, j - 1);
      assert ops[..j][..j - 1] == ops[..j - 1] && ops[..j][j - 1] == ops[j - 1];
      AfterRises(env, AfterAll(env, docs, ops[..j - 1]), ops[j - 1]);
      LeqTransitive(AfterAll(env, docs, ops[..i]), AfterAll(env, docs, ops[..j - 1]), AfterAll(env, docs, ops[..j]));
    }
  }

  /** Over every sequence of edits, merges and initialisations, no token lets two edits of a
      document through. */
  lemma TokenUsedOnce(env: Env, docs: Docs, ops: seq<Op>, i: nat, j: nat)
    requires i < j < |ops| && ops[i].Put? && ops[j].Put? && ops[i].name == ops[j].name
    requires Accepts(env, AfterAll(env, docs, ops[..i]), ops[i]) && Accepts(env, AfterAll(env, docs, ops[..j]), ops[j])
    ensures ops[i].expected != ops[j].expected
  {
    var name := ops[i].name;
    var before, after, later := AfterAll(env, docs, ops[..i]), AfterAll(env, docs, ops[..i + 1]),
      AfterAll(env, docs, ops[..j]);
    assert ops[..i + 1][..i] == ops[..i] && ops[..i + 1][i] == ops[i];
    AfterRises(env, before, ops[i]);
    RunRises(env, docs, ops, i + 1, j);
    DraftIsNewer(env, before, name, ops[i].schema, ops[i].value);
    assert name in later && name != [];
    if name in before {
      CompareIsTotal(later[name].version, after[name].version, before[name].version);
      if ops[i].expected == ops[j].expected {
        TokenInjective(name, before[name].version, name, later[name].version);
      }
    }
  }

  lemma InitFills(env: Env, docs: Docs, records: seq<Record>)
    requires Accepts(env, docs, Init(records))
    ensures docs == map[] && After(env, docs, Init(records)) != map[]
  {
    MergedIsLeast(docs, records);
    assert records[0] in records;
  }

  /** Once anything is stored, no initialisation goes through, whatever happens in between. */
  lemma InitNeedsEmpty(env: Env, docs: Docs, ops: seq<Op>, i: nat, j: nat)
    requires i <= j < |ops| && ops[j].Init? && AfterAll(env, docs, ops[..i]) != map[]
    ensures !Accepts(env, AfterAll(env, docs, ops[..j]), ops[j])
  {
    RunRises(env, docs, ops, i, j);
    var name :| name in AfterAll(env, docs, ops[..i]);
    assert name in AfterAll(env, docs, ops[..j]);
  }

  /** Over every sequence of operations a store is initialised at most once. */
  lemma InitializedOnce(env: Env, docs: Docs, ops: seq<Op>, i: nat, j: nat)
    requires i < j < |ops| && ops[i].Init? && ops[j].Init? && Accepts(env, AfterAll(env, docs, ops[..i]), ops[i])
    ensures !Accepts(env, AfterAll(env, docs, ops[..j]), ops[j])
  {
    InitFills(env, AfterAll(env, docs, ops[..i]), ops[i].records);
    assert ops[..i + 1][..i] == ops[..i] && ops[..i + 1][i] == ops[i];
    InitNeedsEmpty(env, docs, ops, i + 1, j);
  }
}
