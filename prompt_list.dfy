/** The persisted state of the popup: one ordered, newest-first list of
    prompt records stored under the key "prompts". */
module PromptList {
  import opened JsTrim

  datatype Option<T> = None | Some(value: T)

  /** One stored record: `{id, title, text, createdAt}`. The id is the decimal
      string of the creation time and the timestamp an ISO-8601 string; both
      are produced by the environment and are opaque here. */
  datatype Prompt = Prompt(id: string, title: string, text: string, createdAt: string)

  /** `result.prompts || []`: an absent value reads as the empty list. */
  function OrEmpty(stored: Option<seq<Prompt>>): seq<Prompt>
  {
    match stored
    case None => []
    case Some(ps) => ps
  }

  function Ids(ps: seq<Prompt>): (r: seq<string>)
    ensures |r| == |ps|
    ensures forall i :: 0 <= i < |ps| ==> r[i] == ps[i].id
  {
    if ps == [] then [] else [ps[0].id] + Ids(ps[1..])
  }

  /** No two records share an id. popup.js does not enforce this; it holds
      only as long as no two prompts are created in the same millisecond. */
  predicate UniqueIds(ps: seq<Prompt>) {
    forall i, j :: 0 <= i < j < |ps| ==> ps[i].id != ps[j].id
  }

  /** What the add handler guarantees of every record it creates: a title and
      a text that are non-empty and already trimmed. */
  predicate WellFormedPrompt(p: Prompt) {
    p.title != [] && p.text != [] && IsTrimmed(p.title) && IsTrimmed(p.text)
  }

  predicate WellFormed(ps: seq<Prompt>) {
    forall i :: 0 <= i < |ps| ==> WellFormedPrompt(ps[i])
  }

  /** `prompts.filter(p => p.id !== promptId)`. */
  function Without(ps: seq<Prompt>, id: string): (r: seq<Prompt>)
    ensures |r| <= |ps|
    ensures forall i :: 0 <= i < |r| ==> r[i].id != id
    decreases |ps|
  {
    if ps == [] then []
    else if ps[0].id == id then Without(ps[1..], id)
    else [ps[0]] + Without(ps[1..], id)
  }

  /** Filtering distributes over concatenation: the survivors keep their
      original relative order. */
  lemma {:induction false} WithoutAppend(a: seq<Prompt>, b: seq<Prompt>, id: string)
    ensures Without(a + b, id) == Without(a, id) + Without(b, id)
    decreases |a|
  {
    if a != [] {
      assert (a + b)[1..] == a[1..] + b;
      WithoutAppend(a[1..], b, id);
    } else {
      assert a + b == b;
    }
  }

  /** Every record with the id is removed, every other record is kept with
      its multiplicity. */
  lemma {:induction false} WithoutCounts(ps: seq<Prompt>, id: string, p: Prompt)
    ensures multiset(Without(ps, id))[p] == if p.id == id then 0 else multiset(ps)[p]
    decreases |ps|
  {
    if ps != [] {
      WithoutCounts(ps[1..], id, p);
      assert ps == [ps[0]] + ps[1..];
    }
  }

  /** A record survives the delete exactly when it was there and carries a
      different id. */
  lemma {:induction false} WithoutMembership(ps: seq<Prompt>, id: string, p: Prompt)
    ensures p in Without(ps, id) <==> p in ps && p.id != id
  {
    WithoutCounts(ps, id, p);
  }

  /** Deleting an id that no record carries leaves the list as it was, and
      only then. */
  lemma {:induction false} WithoutUnchangedIff(ps: seq<Prompt>, id: string)
    ensures Without(ps, id) == ps <==> id !in Ids(ps)
    decreases |ps|
  {
    if ps != [] {
      WithoutUnchangedIff(ps[1..], id);
      assert Ids(ps) == [ps[0].id] + Ids(ps[1..]);
      if ps[0].id == id {
        assert |Without(ps, id)| < |ps|;
      }
    }
  }

  /** Deleting the same id twice ends where deleting it once does. */
  lemma {:induction false} WithoutIdempotent(ps: seq<Prompt>, id: string)
    ensures Without(Without(ps, id), id) == Without(ps, id)
  {
    WithoutUnchangedIff(Without(ps, id), id);
  }

  /** Number of records carrying `id`. */
  function CountId(ps: seq<Prompt>, id: string): (n: nat)
    ensures n <= |ps|
    ensures n == 0 <==> id !in Ids(ps)
  {
    if ps == [] then 0
    else (if ps[0].id == id then 1 else 0) + CountId(ps[1..], id)
  }

  /** The delete removes exactly the records carrying the id. */
  lemma {:induction false} WithoutLength(ps: seq<Prompt>, id: string)
    ensures |Without(ps, id)| == |ps| - CountId(ps, id)
    decreases |ps|
  {
    if ps != [] {
      WithoutLength(ps[1..], id);
    }
  }

  /** With unique ids an id occurs at most once, so the delete removes at most
      one record, and exactly one when the id is present. */
  lemma {:induction false} UniqueCountAtMostOne(ps: seq<Prompt>, id: string)
    requires UniqueIds(ps)
    ensures CountId(ps, id) <= 1
    decreases |ps|
  {
    if ps != [] {
      assert UniqueIds(ps[1..]) by {
        forall i, j | 0 <= i < j < |ps[1..]| ensures ps[1..][i].id != ps[1..][j].id {
          assert ps[1..][i] == ps[i + 1] && ps[1..][j] == ps[j + 1];
        }
      }
      UniqueCountAtMostOne(ps[1..], id);
    }
  }

  lemma {:induction false} UniqueDeleteRemovesAtMostOne(ps: seq<Prompt>, id: string)
    requires UniqueIds(ps)
    ensures id in Ids(ps) ==> |Without(ps, id)| == |ps| - 1
    ensures id !in Ids(ps) ==> Without(ps, id) == ps
  {
    UniqueCountAtMostOne(ps, id);
    WithoutLength(ps, id);
    WithoutUnchangedIff(ps, id);
  }

  /** The delete keeps the two invariants of the list. */
  lemma {:induction false} WithoutPreserves(ps: seq<Prompt>, id: string)
    ensures WellFormed(ps) ==> WellFormed(Without(ps, id))
    ensures UniqueIds(ps) ==> UniqueIds(Without(ps, id))
  {
    var r := Without(ps, id);
    forall i | 0 <= i < |r| ensures r[i] in ps {
      WithoutMembership(ps, id, r[i]);
    }
    if UniqueIds(ps) {
      WithoutKeepsUnique(ps, id);
    }
  }

  lemma {:induction false} WithoutKeepsUnique(ps: seq<Prompt>, id: string)
    requires UniqueIds(ps)
    ensures UniqueIds(Without(ps, id))
    decreases |ps|
  {
    if ps != [] {
      assert UniqueIds(ps[1..]) by {
        forall i, j | 0 <= i < j < |ps[1..]| ensures ps[1..][i].id != ps[1..][j].id {
          assert ps[1..][i] == ps[i + 1] && ps[1..][j] == ps[j + 1];
        }
      }
      WithoutKeepsUnique(ps[1..], id);
      var rest := Without(ps[1..], id);
      if ps[0].id != id {
        forall k | 0 <= k < |rest| ensures rest[k].id != ps[0].id {
          WithoutMembership(ps[1..], id, rest[k]);
          var m :| 0 <= m < |ps[1..]| && ps[1..][m] == rest[k];
          assert ps[m + 1] == rest[k];
        }
        var r := [ps[0]] + rest;
        forall i, j | 0 <= i < j < |r| ensures r[i].id != r[j].id {
          if i == 0 { assert r[j] == rest[j - 1]; }
          else { assert r[i] == rest[i - 1] && r[j] == rest[j - 1]; }
        }
      }
    }
  }

  /** `prompts.unshift(p)`: the new record goes to index 0. Prepending a
      well-formed record keeps the list well formed. */
  lemma {:induction false} PrependWellFormed(ps: seq<Prompt>, p: Prompt)
    requires WellFormed(ps) && WellFormedPrompt(p)
    ensures WellFormed([p] + ps)
  {
    var r := [p] + ps;
    forall i | 0 <= i < |r| ensures WellFormedPrompt(r[i]) {
      if i > 0 { assert r[i] == ps[i - 1]; }
    }
  }

  /** Prepending to a list with unique ids keeps them unique exactly when the
      new id is not already in use. */
  lemma {:induction false} PrependUnique(ps: seq<Prompt>, p: Prompt)
    requires UniqueIds(ps)
    ensures UniqueIds([p] + ps) <==> p.id !in Ids(ps)
  {
    var r := [p] + ps;
    if p.id !in Ids(ps) {
      forall i, j | 0 <= i < j < |r| ensures r[i].id != r[j].id {
        assert r[j] == ps[j - 1] && Ids(ps)[j - 1] == ps[j - 1].id;
        if i > 0 { assert r[i] == ps[i - 1]; }
      }
    } else {
      var j :| 0 <= j < |ps| && Ids(ps)[j] == p.id;
      assert r[0].id == r[j + 1].id;
    }
  }

  /** Deleting the id of a record just added with an unused id undoes the
      add. */
  lemma {:induction false} DeleteUndoesAdd(ps: seq<Prompt>, p: Prompt)
    requires p.id !in Ids(ps)
    ensures Without([p] + ps, p.id) == ps
  {
    assert ([p] + ps)[1..] == ps;
    WithoutUnchangedIff(ps, p.id);
  }
}
