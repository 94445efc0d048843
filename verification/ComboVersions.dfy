/** What a write leaves in the combo table, field by field, and when the table can still be read afterwards
    (internal/store/combo_store.go, internal/combos/upgrade.go). */
module ComboVersions {
  import opened ByteStrings
  import opened ComboGraph
  import opened ComboValidate
  import opened ComboStore

  // --- the row that is written ---

  /** The schema version a write stores: Create and Save fill in a missing one, Update does not. */
  function VersionWritten(op: Op): int
    requires !op.Delete?
  {
    if op.combo.schemaVer == 0 && !op.Update? then 2 else op.combo.schemaVer
  }

  ghost predicate SameButFor(g: Graph, h: Graph, name: string) {
    forall k | k != name :: (k in g <==> k in h) && (k in g ==> g[k] == h[k])
  }

  /** A successful write validated the combo in the table with the combo in its ID's place. */
  lemma ValidatedIn(rows: Graph, op: Op, providers: Option<ProviderSet>, d: int) returns (g: Graph)
    requires !op.Delete? && Succeeds(rows, op, providers, d)
    ensures var id := if op.combo.id == "" then op.combo.name else op.combo.id;
      SameButFor(g, rows, id) && id in g && g[id].steps == op.combo.steps && Longest(g, id, d)
  {
    var c := Target(op);
    g := Searched(c, Existing(rows, c, op.Update? || (op.Save? && c.id in rows)));
    assert SoundFrom(g, c.id, d);
  }

  /** A combo stored by a write: what the caller gave, under its name, with the length of the longest reference path below
      it in the table it was validated against; every other row is as it was. */
  lemma StoredRow(rows: Graph, op: Op, providers: Option<ProviderSet>, rows': Graph) returns (g: Graph)
    requires OpStep(rows, op, providers, rows') && !op.Delete? && exists d :: Succeeds(rows, op, providers, d)
    ensures var name, id := op.combo.name, if op.combo.id == "" then op.combo.name else op.combo.id;
      && SameButFor(rows', rows, name) && name in rows'
      && var row := rows'[name];
         && row.id == row.name == name && row.steps == op.combo.steps && row.strategy == op.combo.strategy
         && row.schemaVer == VersionWritten(op)
         && SameButFor(g, rows, id) && id in g && g[id].steps == row.steps && Longest(g, id, row.depth)
  {
    var d := Written(rows, op, providers, rows');
    g := ValidatedIn(rows, op, providers, d);
  }

  // --- a table that can be read ---

  /** The operation succeeds and stores a row no later read accepts. */
  ghost predicate Spoils(rows: Graph, op: Op, providers: Option<ProviderSet>) {
    && (exists d :: Succeeds(rows, op, providers, d))
    && VersionWritten(op) != CURRENT_SCHEMA
  }

  /** One operation keeps a readable table readable exactly unless it stores another schema version. */
  lemma StepKeepsReadableIff(rows: Graph, op: Op, providers: Option<ProviderSet>, rows': Graph)
    requires AllCurrent(rows) && OpStep(rows, op, providers, rows')
    ensures AllCurrent(rows') <==> !Spoils(rows, op, providers)
  {
    if !op.Delete? && exists d :: Succeeds(rows, op, providers, d) {
      var d := Written(rows, op, providers, rows');
      assert Current(Persisted(Target(op), d)) <==> VersionWritten(op) == CURRENT_SCHEMA;
      assert Target(op).name in rows';
    }
  }

  /** In every run the table stays readable up to any point if and only if no operation before it spoils it. */
  lemma {:induction false} RunsReadableIff(states: seq<Graph>, ops: seq<Op>, providers: Option<ProviderSet>, k: nat)
    requires Run(states, ops, providers) && k <= |ops|
    ensures (forall i | 0 <= i <= k :: AllCurrent(states[i])) <==> forall i | 0 <= i < k :: !Spoils(states[i], ops[i], providers)
  {
    if k > 0 {
      RunsReadableIff(states, ops, providers, k - 1);
      if AllCurrent(states[k - 1]) { StepKeepsReadableIff(states[k - 1], ops[k - 1], providers, states[k]); }
    }
  }

  /** Once a row cannot be read nothing can be written: no Create, Update or Save of any combo succeeds, and only
      deletions change the table. */
  lemma UnreadableIsStuck(rows: Graph, op: Op, providers: Option<ProviderSet>, rows': Graph)
    requires !AllCurrent(rows) && OpStep(rows, op, providers, rows')
    ensures !op.Delete? ==> rows' == rows && forall d :: !Succeeds(rows, op, providers, d)
    ensures op.Delete? ==> rows' == rows - {op.id}
  {
  }

  /** And so it stays, whatever else is done, until that very combo is deleted. */
  lemma {:induction false} StuckUntilDeleted(states: seq<Graph>, ops: seq<Op>, providers: Option<ProviderSet>, i: nat, j: nat,
                                             name: string)
    requires Run(states, ops, providers) && i <= j <= |ops|
    requires name in states[i] && !Current(states[i][name]) && forall l | i <= l < j :: ops[l] != Delete(name)
    ensures name in states[j] && !Current(states[j][name])
    ensures forall l | i <= l < j && !ops[l].Delete? :: states[l + 1] == states[l]
    decreases j - i
  {
    if i < j {
      StuckUntilDeleted(states, ops, providers, i, j - 1, name);
      UnreadableIsStuck(states[j - 1], ops[j - 1], providers, states[j]);
    }
  }

  /** Two accepted operations are enough: a combo is created, then updated without giving a version. */
  lemma UpdateWithoutVersionSpoils(n: string) returns (states: seq<Graph>, ops: seq<Op>)
    requires ValidName(n)
    ensures Run(states, ops, None) && |ops| == 2 && ops[0].Create? && ops[1].Update?
    ensures ops[0].combo.id == ops[0].combo.name == ops[1].combo.id == ops[1].combo.name == n && ops[1].combo.schemaVer == 0
    ensures n in states[2] && !Current(states[2][n])
  {
    var c := Leaf(n).(schemaVer := 0);
    var rows: Graph := map[n := Leaf(n)];
    CreateLeaf(map[], n);
    LeafSound(Searched(c, Existing(rows, c, true)), n);
    assert Succeeds(rows, Update(c), None, 0);
    OnlyDepth(rows, Update(c), 0);
    states, ops := [map[], rows, rows[n := Persisted(c, 0)]], [Create(Leaf(n)), Update(c)];
    assert OpStep(map[], Create(Leaf(n)), None, rows);
  }
}
