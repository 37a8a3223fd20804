/**
  * Building a name-to-handler registry from a list of named entries,
  * rejecting the first name that repeats. The command registry and the
  * query registry both follow this algorithm.
  */
module Registration {
  import opened Wrappers

  /** A name paired with its handler (`RegisteredCommand`, `RegisteredQuery`). */
  datatype Entry<H> = Entry(name: string, handler: H)

  ghost function Names<H>(es: seq<Entry<H>>): set<string> {
    set i | 0 <= i < |es| :: es[i].name
  }

  ghost predicate DistinctNames<H>(es: seq<Entry<H>>) {
    forall i, j :: 0 <= i < j < |es| ==> es[i].name != es[j].name
  }

  /** Position `k` is the first entry whose name already occurred earlier. */
  ghost predicate FirstRepeat<H>(es: seq<Entry<H>>, k: int) {
    0 <= k < |es| && DistinctNames(es[..k]) && es[k].name in Names(es[..k])
  }

  /** `m` holds exactly the names of `es`, each mapped to its entry's handler. */
  ghost predicate Maps<H>(m: map<string, H>, es: seq<Entry<H>>) {
    && m.Keys == Names(es)
    && forall i :: 0 <= i < |es| ==> es[i].name in m && m[es[i].name] == es[i].handler
  }

  lemma NamesSnoc<H>(es: seq<Entry<H>>, i: nat)
    requires i < |es|
    ensures Names(es[..i + 1]) == Names(es[..i]) + {es[i].name}
  {
  }

  lemma NamesSingleton<H>(e: Entry<H>)
    ensures Names([e]) == {e.name}
  {
    assert [e][0] == e;
  }

  /** The loop of `NewRegistry`, after the first `i` entries went into `acc`. */
  function BuildFrom<H>(es: seq<Entry<H>>, i: nat, acc: map<string, H>): (r: Result<map<string, H>, string>)
    requires i <= |es|
    requires DistinctNames(es[..i]) && Maps(acc, es[..i])
    ensures r.Success? <==> DistinctNames(es)
    ensures r.Success? ==> Maps(r.value, es)
    ensures r.Failure? ==> exists k :: FirstRepeat(es, k) && es[k].name == r.error
    decreases |es| - i
  {
    if i == |es| then
      assert es[..i] == es;
      Success(acc)
    else if es[i].name in acc then
      assert FirstRepeat(es, i);
      var j :| 0 <= j < i && es[..i][j].name == es[i].name;
      assert es[j].name == es[i].name;
      Failure(es[i].name)
    else
      var acc' := acc[es[i].name := es[i].handler];
      NamesSnoc(es, i);
      var next := es[..i + 1];
      assert DistinctNames(next) by {
        forall j, k | 0 <= j < k < i + 1 ensures next[j].name != next[k].name {
          if k == i {
            assert es[..i][j] == es[j];
          } else {
            assert es[..i][j] == es[j] && es[..i][k] == es[k];
          }
        }
      }
      assert Maps(acc', next) by {
        forall j | 0 <= j < i + 1 ensures next[j].name in acc' && acc'[next[j].name] == next[j].handler {
          if j < i {
            assert es[..i][j] == es[j];
          }
        }
      }
      BuildFrom(es, i + 1, acc')
  }

  /**
    * Registers the entries in order. Succeeds exactly when the names are
    * distinct, with every name mapped to its own handler; otherwise fails
    * with the first name that repeats.
    */
  function Build<H>(es: seq<Entry<H>>): (r: Result<map<string, H>, string>)
    ensures r.Success? <==> DistinctNames(es)
    ensures r.Success? ==> Maps(r.value, es)
    ensures r.Failure? ==> exists k :: FirstRepeat(es, k) && es[k].name == r.error
  {
    assert es[..0] == [];
    BuildFrom(es, 0, map[])
  }

  /** The first repeat is unique, so the failing name `Build` reports is determined. */
  lemma FirstRepeatUnique<H>(es: seq<Entry<H>>, k: int)
    requires FirstRepeat(es, k)
    ensures forall m :: 0 <= m < k ==> !FirstRepeat(es, m)
    ensures forall m :: k < m < |es| ==> !FirstRepeat(es, m)
  {
  }
}
