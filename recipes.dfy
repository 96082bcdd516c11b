/** The recipe records kept by the app and the three list transformations its
    event handlers apply to them: appending a new record, replacing the fields
    of the record being edited, and dropping the record confirmed for deletion.
 */
module Recipes {

  datatype Option<T> = None | Some(value: T)

  /** One catalog entry. `id` is the text of the clock reading taken when the
      record was created; the other three fields are the form's free text. */
  datatype Recipe = Recipe(id: string, title: string, ingredients: string, preparation: string)

  /** The ids present in a list of recipes. */
  ghost function Ids(rs: seq<Recipe>): set<string>
  {
    set r | r in rs :: r.id
  }

  /** No two records of the list share an id. */
  ghost predicate UniqueIds(rs: seq<Recipe>)
  {
    forall i, j :: 0 <= i < j < |rs| ==> rs[i].id != rs[j].id
  }

  /** The record the edit branch builds from an existing one: every field but
      `id` is replaced by the form's values. */
  function Edited(r: Recipe, title: string, ingredients: string, preparation: string): (e: Recipe)
    ensures e.id == r.id
    ensures e.title == title && e.ingredients == ingredients && e.preparation == preparation
  {
    r.(title := title, ingredients := ingredients, preparation := preparation)
  }

  /** The list after saving an edit: every record whose id is `id` gets the
      form's fields, every other record is left as it is, and no record moves. */
  function UpdateById(rs: seq<Recipe>, id: string, title: string, ingredients: string, preparation: string)
    : (out: seq<Recipe>)
    ensures |out| == |rs|
    ensures forall k :: 0 <= k < |rs| ==> out[k].id == rs[k].id
    ensures forall k :: 0 <= k < |rs| && rs[k].id == id ==> out[k] == Recipe(id, title, ingredients, preparation)
    ensures forall k :: 0 <= k < |rs| && rs[k].id != id ==> out[k] == rs[k]
  {
    if rs == [] then []
    else
      [if rs[0].id == id then Edited(rs[0], title, ingredients, preparation) else rs[0]]
      + UpdateById(rs[1..], id, title, ingredients, preparation)
  }

  /** The list after confirming a deletion: the records whose id is not `id`,
      in their original order. */
  function RemoveById(rs: seq<Recipe>, id: string): (out: seq<Recipe>)
    ensures |out| <= |rs|
    ensures forall r :: r in out <==> r in rs && r.id != id
  {
    if rs == [] then []
    else
      (if rs[0].id == id then [] else [rs[0]]) + RemoveById(rs[1..], id)
  }

  // ---------------------------------------------------------------------------
  // Appending a new record

  /** Appending keeps every earlier record where it was and adds exactly the new id. */
  lemma AppendKeepsPrefix(rs: seq<Recipe>, r: Recipe)
    ensures |rs + [r]| == |rs| + 1
    ensures (rs + [r])[..|rs|] == rs && (rs + [r])[|rs|] == r
    ensures Ids(rs + [r]) == Ids(rs) + {r.id}
  {
  }

  /** On a list with unique ids, the appended list has unique ids exactly when
      the new id is not already present. */
  lemma AppendUniqueIff(rs: seq<Recipe>, r: Recipe)
    requires UniqueIds(rs)
    ensures UniqueIds(rs + [r]) <==> r.id !in Ids(rs)
  {
    var s := rs + [r];
    if r.id !in Ids(rs) {
      forall i, j | 0 <= i < j < |s| ensures s[i].id != s[j].id {
        if j == |rs| {
          assert s[i] in rs;
        } else {
          assert s[i] == rs[i] && s[j] == rs[j];
        }
      }
    } else {
      var q :| q in rs && q.id == r.id;
      var i :| 0 <= i < |rs| && rs[i] == q;
      assert s[i].id == s[|rs|].id;
    }
  }

  // ---------------------------------------------------------------------------
  // Replacing the fields of the edited record

  /** Saving an edit for an id that no record carries leaves the list as it was. */
  lemma UpdateAbsentIsIdentity(rs: seq<Recipe>, id: string, title: string, ingredients: string, preparation: string)
    requires id !in Ids(rs)
    ensures UpdateById(rs, id, title, ingredients, preparation) == rs
  {
  }

  /** Saving an edit keeps the set of ids. */
  lemma UpdateKeepsIds(rs: seq<Recipe>, id: string, title: string, ingredients: string, preparation: string)
    ensures Ids(UpdateById(rs, id, title, ingredients, preparation)) == Ids(rs)
  {
  }

  /** Saving an edit keeps ids unique. */
  lemma UpdateKeepsUnique(rs: seq<Recipe>, id: string, title: string, ingredients: string, preparation: string)
    requires UniqueIds(rs)
    ensures UniqueIds(UpdateById(rs, id, title, ingredients, preparation))
  {
  }

  /** Saving an edit for an id carried by a record of a list with unique ids
      replaces that one record and no other. */
  lemma UpdateUniqueChangesOne(rs: seq<Recipe>, k: nat, title: string, ingredients: string, preparation: string)
    requires UniqueIds(rs) && k < |rs|
    ensures UpdateById(rs, rs[k].id, title, ingredients, preparation)
         == rs[k := Recipe(rs[k].id, title, ingredients, preparation)]
  {
  }

  // ---------------------------------------------------------------------------
  // Dropping the record confirmed for deletion

  /** Filtering distributes over concatenation: the kept records stay in the
      relative order they had. */
  lemma {:induction false} RemoveConcat(a: seq<Recipe>, b: seq<Recipe>, id: string)
    ensures RemoveById(a + b, id) == RemoveById(a, id) + RemoveById(b, id)
  {
    if a == [] {
      assert a + b == b;
    } else {
      assert (a + b)[1..] == a[1..] + b;
      assert (a + b)[0] == a[0];
      RemoveConcat(a[1..], b, id);
    }
  }

  /** Every record keeps its number of occurrences, except records with the
      removed id, which all disappear. */
  lemma {:induction false} RemoveCounts(rs: seq<Recipe>, id: string, r: Recipe)
    ensures multiset(RemoveById(rs, id))[r] == if r.id == id then 0 else multiset(rs)[r]
  {
    if rs != [] {
      RemoveCounts(rs[1..], id, r);
      assert rs == [rs[0]] + rs[1..];
      assert multiset(rs) == multiset([rs[0]]) + multiset(rs[1..]);
    }
  }

  /** Removing an id that no record carries leaves the list as it was. */
  lemma {:induction false} RemoveAbsentIsIdentity(rs: seq<Recipe>, id: string)
    requires id !in Ids(rs)
    ensures RemoveById(rs, id) == rs
  {
    if rs != [] {
      assert rs[0] in rs;
      assert Ids(rs[1..]) <= Ids(rs) by {
        forall x | x in Ids(rs[1..]) ensures x in Ids(rs) {
          var q :| q in rs[1..] && q.id == x;
          assert q in rs;
        }
      }
      RemoveAbsentIsIdentity(rs[1..], id);
      assert rs == [rs[0]] + rs[1..];
    }
  }

  /** After removal, the ids left are the old ones minus the removed id. */
  lemma RemoveIds(rs: seq<Recipe>, id: string)
    ensures Ids(RemoveById(rs, id)) == Ids(rs) - {id}
  {
  }

  /** The first record of a list with unique ids has an id that the rest of
      the list lacks, and the rest has unique ids too. */
  lemma UniqueSplit(rs: seq<Recipe>)
    requires UniqueIds(rs) && rs != []
    ensures UniqueIds(rs[1..]) && rs[0].id !in Ids(rs[1..])
  {
  }

  /** A record whose id a list with unique ids lacks can be put in front of it. */
  lemma UniqueCons(r: Recipe, t: seq<Recipe>)
    requires UniqueIds(t) && r.id !in Ids(t)
    ensures UniqueIds([r] + t)
  {
  }

  /** Removal keeps the ids of a list unique. */
  lemma {:induction false} RemoveKeepsUnique(rs: seq<Recipe>, id: string)
    requires UniqueIds(rs)
    ensures UniqueIds(RemoveById(rs, id))
  {
    if rs != [] {
      UniqueSplit(rs);
      RemoveKeepsUnique(rs[1..], id);
      if rs[0].id != id {
        RemoveIds(rs[1..], id);
        UniqueCons(rs[0], RemoveById(rs[1..], id));
      }
    }
  }

  /** On a list with unique ids, confirming the deletion of a present id
      shortens the list by exactly one. */
  lemma {:induction false} RemoveUniquePresent(rs: seq<Recipe>, id: string)
    requires UniqueIds(rs) && id in Ids(rs)
    ensures |RemoveById(rs, id)| == |rs| - 1
  {
    UniqueSplit(rs);
    if rs[0].id == id {
      RemoveAbsentIsIdentity(rs[1..], id);
    } else {
      assert id in Ids(rs[1..]) by {
        var q :| q in rs && q.id == id;
        assert q != rs[0];
        assert q in rs[1..];
      }
      RemoveUniquePresent(rs[1..], id);
    }
  }
}
