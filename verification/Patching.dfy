/** Visiting the entries of a map one at a time, in any order, and replacing them. */
module Patching {
  /** The part of a set still to be visited and the part already visited. */
  ghost predicate Splits(all: set<string>, todo: set<string>, done: set<string>) {
    todo + done == all && todo !! done
  }

  lemma SplitsFirst(all: set<string>)
    ensures Splits(all, all, {})
  {
  }

  lemma SplitsNext(all: set<string>, todo: set<string>, done: set<string>, k: string)
    requires Splits(all, todo, done) && k in todo
    ensures Splits(all, todo - {k}, done + {k}) && |todo - {k}| < |todo| && k !in done && k in all
  {
  }

  lemma SplitsLast(all: set<string>, done: set<string>)
    requires Splits(all, {}, done)
    ensures done == all
  {
  }

  /** A table once the entries in `done` have been replaced by those of the patch. */
  ghost predicate Patched<V>(table0: map<string, V>, patch: map<string, V>, done: set<string>,
                             table: map<string, V>) {
    && done <= patch.Keys
    && table.Keys == table0.Keys + done
    && forall k | k in table :: table[k] == if k in done then patch[k] else table0[k]
  }

  lemma PatchedNone<V>(table: map<string, V>, patch: map<string, V>)
    ensures Patched(table, patch, {}, table)
  {
  }

  lemma PatchedOneMore<V>(table0: map<string, V>, patch: map<string, V>, done: set<string>,
                          table: map<string, V>, k: string)
    requires Patched(table0, patch, done, table) && k in patch
    ensures Patched(table0, patch, done + {k}, table[k := patch[k]])
  {
  }

  lemma PatchedEnds<V>(table0: map<string, V>, patch: map<string, V>, done: set<string>, table: map<string, V>)
    requires Patched(table0, patch, done, table) && patch.Keys - done == {}
    ensures table == table0 + patch
  {
    forall k | k in patch
      ensures k in done
    {
      assert k in done || k in patch.Keys - done;
    }
  }

  lemma PatchedElsewhere<V>(table0: map<string, V>, patch: map<string, V>, done: set<string>,
                            table: map<string, V>, k: string)
    requires Patched(table0, patch, done, table) && k !in done
    ensures k in table <==> k in table0
    ensures k in table ==> table[k] == table0[k]
  {
  }

  lemma PatchedWithin<V>(table0: map<string, V>, patch: map<string, V>, done: set<string>, table: map<string, V>)
    requires Patched(table0, patch, done, table)
    ensures done <= patch.Keys
  {
  }

  /** The table so far, as a table with part of the patch. */
  lemma PatchedPart<V>(table0: map<string, V>, patch: map<string, V>, done: set<string>, table: map<string, V>,
                       part: map<string, V>)
    requires Patched(table0, patch, done, table)
    requires part.Keys == done <= patch.Keys && forall k | k in done :: part[k] == patch[k]
    ensures table == table0 + part
  {
  }
}
