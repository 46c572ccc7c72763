/**
 The command table of the plugin: the `command_definitions` setting, an ordered
 list of `{id, command}` records, turned into a map from id to shell command.
 The table is rebuilt from nothing on every reload and a later record with the
 same id overwrites an earlier one.
 */
module CommandTable {

  /** One record of the `command_definitions` setting. */
  datatype Definition = Definition(id: string, command: string)

  /** The lookup map held by the plugin: command id to shell command text. */
  type Table = map<string, string>

  /** Every id that occurs in the list of definitions. */
  function Ids(defs: seq<Definition>): set<string>
  {
    set i | 0 <= i < |defs| :: defs[i].id
  }

  /** `defs[i]` is the last definition in the list that carries its id. */
  predicate IsLast(defs: seq<Definition>, i: int)
  {
    0 <= i < |defs| && forall j :: i < j < |defs| ==> defs[j].id != defs[i].id
  }

  /** No id occurs twice in the list. */
  predicate DistinctIds(defs: seq<Definition>)
  {
    forall i, j :: 0 <= i < j < |defs| ==> defs[i].id != defs[j].id
  }

  /** The reload loop run from table `acc`: each definition in order does `table[id] = command`. */
  function Fold(acc: Table, defs: seq<Definition>): Table
    decreases |defs|
  {
    if defs == [] then acc
    else Fold(acc[defs[0].id := defs[0].command], defs[1..])
  }

  /** The ids of a non-empty list: the first record's id and the ids of the rest. */
  lemma IdsCons(defs: seq<Definition>)
    requires |defs| > 0
    ensures Ids(defs) == {defs[0].id} + Ids(defs[1..])
  {
  }

  /** An id that no later definition repeats is absent from the rest of the list. */
  lemma HeadNotInTail(defs: seq<Definition>)
    requires |defs| > 0
    requires forall j :: 0 < j < |defs| ==> defs[j].id != defs[0].id
    ensures defs[0].id !in Ids(defs[1..])
  {
  }

  /** The loop adds exactly the ids of the list to whatever the table already held. */
  lemma {:induction false} FoldKeys(acc: Table, defs: seq<Definition>)
    ensures Fold(acc, defs).Keys == acc.Keys + Ids(defs)
    decreases |defs|
  {
    if defs != [] {
      FoldKeys(acc[defs[0].id := defs[0].command], defs[1..]);
      IdsCons(defs);
    }
  }

  /** An entry whose id the list never mentions keeps its value. */
  lemma {:induction false} FoldKeepsUntouched(acc: Table, defs: seq<Definition>, k: string)
    requires k in acc && k !in Ids(defs)
    ensures k in Fold(acc, defs) && Fold(acc, defs)[k] == acc[k]
    decreases |defs|
  {
    if defs != [] {
      IdsCons(defs);
      FoldKeepsUntouched(acc[defs[0].id := defs[0].command], defs[1..], k);
    }
  }

  /** The last definition of each id decides its entry. */
  lemma {:induction false} FoldLastWins(acc: Table, defs: seq<Definition>)
    ensures forall i :: IsLast(defs, i) ==>
              defs[i].id in Fold(acc, defs) && Fold(acc, defs)[defs[i].id] == defs[i].command
    decreases |defs|
  {
    if defs != [] {
      var acc' := acc[defs[0].id := defs[0].command];
      FoldLastWins(acc', defs[1..]);
      forall i | IsLast(defs, i)
        ensures defs[i].id in Fold(acc, defs) && Fold(acc, defs)[defs[i].id] == defs[i].command
      {
        if i == 0 {
          HeadNotInTail(defs);
          FoldKeepsUntouched(acc', defs[1..], defs[0].id);
        } else {
          assert defs[1..][i - 1] == defs[i];
          assert IsLast(defs[1..], i - 1);
        }
      }
    }
  }

  /** Every id of the list has a last occurrence. */
  lemma {:induction false} LastExists(defs: seq<Definition>, k: string)
    requires k in Ids(defs)
    ensures exists i :: IsLast(defs, i) && defs[i].id == k
    decreases |defs|
  {
    var n := |defs| - 1;
    if defs[n].id == k {
      assert IsLast(defs, n);
    } else {
      var front := defs[..n];
      var i :| 0 <= i < |defs| && defs[i].id == k;
      assert front[i] == defs[i];
      LastExists(front, k);
      var j :| IsLast(front, j) && front[j].id == k;
      assert front[j] == defs[j];
      assert IsLast(defs, j);
    }
  }

  /**
   The table `reload_command_definitions` builds: start from an empty map and
   run the loop over the list. It holds exactly the ids of the list, each
   mapped to the command of its last occurrence.
   */
  function Reload(defs: seq<Definition>): (t: Table)
    ensures t.Keys == Ids(defs)
    ensures forall i :: IsLast(defs, i) ==> t[defs[i].id] == defs[i].command
  {
    FoldKeys(map[], defs);
    FoldLastWins(map[], defs);
    Fold(map[], defs)
  }

  /** An entry of the rebuilt table is exactly a definition that no later one overrides. */
  lemma ReloadEntry(defs: seq<Definition>, k: string, v: string)
    ensures (k in Reload(defs) && Reload(defs)[k] == v) <==>
            (exists i :: IsLast(defs, i) && defs[i] == Definition(k, v))
  {
    var t := Reload(defs);
    if k in t {
      LastExists(defs, k);
    }
  }

  /** Without duplicate ids the table has one entry per definition, each with its own command. */
  lemma {:induction false} ReloadDistinct(defs: seq<Definition>)
    requires DistinctIds(defs)
    ensures |Reload(defs)| == |defs|
    ensures forall i :: 0 <= i < |defs| ==> Reload(defs)[defs[i].id] == defs[i].command
  {
    IdsDistinctSize(defs);
    assert Reload(defs).Keys == Ids(defs);
    forall i | 0 <= i < |defs| ensures Reload(defs)[defs[i].id] == defs[i].command {
      assert IsLast(defs, i);
    }
  }

  /** Without duplicates there are as many ids as records. */
  lemma {:induction false} IdsDistinctSize(defs: seq<Definition>)
    requires DistinctIds(defs)
    ensures |Ids(defs)| == |defs|
    decreases |defs|
  {
    if defs != [] {
      IdsCons(defs);
      IdsDistinctSize(defs[1..]);
      HeadNotInTail(defs);
    }
  }

}
