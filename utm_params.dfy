/** The UTM parameter objects shared by the referrer detection and the UTM store: the entries of
    an object in insertion order, a value being a string or `undefined` (`None`). */
module UtmParams {
  import opened Wrappers

  type Params = seq<(string, Option<string>)>

  /** The keys of an object are distinct. */
  predicate DistinctKeys(p: Params) {
    forall i, j :: 0 <= i < j < |p| ==> p[i].0 != p[j].0
  }

  function Keys(p: Params): (ks: seq<string>)
    ensures |ks| == |p| && forall i :: 0 <= i < |p| ==> ks[i] == p[i].0
  {
    if p == [] then [] else [p[0].0] + Keys(p[1..])
  }

  predicate HasKey(p: Params, k: string) {
    exists i :: 0 <= i < |p| && p[i].0 == k
  }

  /** `p[k]`: the value of the first entry named `k`, `undefined` when there is none. */
  function Get(p: Params, k: string): (v: Option<string>)
    ensures !HasKey(p, k) ==> v == None
  {
    if p == [] then None
    else if p[0].0 == k then p[0].1
    else
      var v := Get(p[1..], k);
      assert HasKey(p[1..], k) ==> HasKey(p, k) by {
        if HasKey(p[1..], k) {
          var i :| 0 <= i < |p[1..]| && p[1..][i].0 == k;
          assert p[i + 1].0 == k;
        }
      }
      v
  }

  /** A defined value is the value of an entry with that name. */
  lemma {:induction false} GetFound(p: Params, k: string) returns (i: nat)
    requires Get(p, k).Some?
    ensures i < |p| && p[i].0 == k && p[i].1 == Get(p, k)
  {
    if p[0].0 == k {
      i := 0;
    } else {
      var j := GetFound(p[1..], k);
      i := j + 1;
    }
  }

  /** With distinct keys the value of a key is the value of its entry. */
  lemma {:induction false} GetAt(p: Params, i: nat)
    requires DistinctKeys(p) && i < |p|
    ensures HasKey(p, p[i].0) && Get(p, p[i].0) == p[i].1
  {
    if i > 0 {
      GetAt(p[1..], i - 1);
    }
  }

  const UtmSource := "utm_source"
  const UtmMedium := "utm_medium"
  const UtmCampaign := "utm_campaign"
  const UtmContent := "utm_content"
  const UtmTerm := "utm_term"

  /** `{ utm_source, utm_medium: 'organic', utm_campaign }` */
  function Campaign(source: string, medium: string, campaign: string): Params {
    [(UtmSource, Some(source)), (UtmMedium, Some(medium)), (UtmCampaign, Some(campaign))]
  }

  /** A query string as the name/value pairs of `URLSearchParams`, in order. */
  type Query = seq<(string, string)>

  /** `searchParams.has(k)` */
  predicate QueryHas(q: Query, k: string) {
    exists i :: 0 <= i < |q| && q[i].0 == k
  }

  /** `searchParams.get(k)`: the first value named `k`, `None` for `null`. */
  function QueryGet(q: Query, k: string): (v: Option<string>)
    ensures v.None? <==> !QueryHas(q, k)
    ensures v.Some? ==> (k, v.value) in q
  {
    if q == [] then None
    else if q[0].0 == k then Some(q[0].1)
    else
      var v := QueryGet(q[1..], k);
      assert QueryHas(q, k) ==> QueryHas(q[1..], k) by {
        if QueryHas(q, k) {
          var i :| 0 <= i < |q| && q[i].0 == k;
          assert q[1..][i - 1].0 == k;
        }
      }
      assert v.Some? ==> QueryHas(q, k) by {
        if v.Some? {
          var i :| 0 <= i < |q[1..]| && q[1..][i].0 == k;
          assert q[i + 1].0 == k;
        }
      }
      v
  }

  /** A value that counts as present: a non-empty string. */
  predicate Present(v: Option<string>) {
    v.Some? && v.value != ""
  }

  /** The rule shared by `applyUtmParamsToUrl` and `withUtm`: each parameter, in order, whose
      value is a non-empty string and whose name the query does not have yet is added at the
      end. */
  function AppendMissing(q: Query, params: Params): Query
    decreases |params|
  {
    if params == [] then q
    else
      var (k, v) := params[0];
      var next := if Present(v) && !QueryHas(q, k) then q + [(k, v.value)] else q;
      AppendMissing(next, params[1..])
  }

  /** The parameters missing from `q`, as the pairs to add: an independent description of what
      `AppendMissing` adds. */
  function MissingFrom(q: Query, params: Params): (r: Query)
    ensures |r| <= |params|
  {
    if params == [] then []
    else
      var (k, v) := params[0];
      (if Present(v) && !QueryHas(q, k) then [(k, v.value)] else []) + MissingFrom(q, params[1..])
  }

  function KeySet(p: Params): set<string> {
    set i | 0 <= i < |p| :: p[i].0
  }

  lemma QueryHasAppend(q: Query, extra: Query, k: string)
    ensures QueryHas(q + extra, k) <==> QueryHas(q, k) || QueryHas(extra, k)
  {
    if QueryHas(q + extra, k) {
      var i :| 0 <= i < |q + extra| && (q + extra)[i].0 == k;
      if i >= |q| { assert extra[i - |q|].0 == k; }
    }
    if QueryHas(q, k) {
      var i :| 0 <= i < |q| && q[i].0 == k;
      assert (q + extra)[i].0 == k;
    }
    if QueryHas(extra, k) {
      var i :| 0 <= i < |extra| && extra[i].0 == k;
      assert (q + extra)[|q| + i].0 == k;
    }
  }

  /** The first parameter's name against the rest, and the rest's names. */
  lemma TailKeys(params: Params)
    requires params != []
    ensures params[0].0 in KeySet(params) && KeySet(params[1..]) <= KeySet(params)
    ensures DistinctKeys(params) ==> DistinctKeys(params[1..]) && params[0].0 !in KeySet(params[1..])
  {
    assert params[0].0 in KeySet(params);
    forall j | 0 <= j < |params[1..]| ensures params[1..][j].0 in KeySet(params) {
      assert params[1..][j] == params[j + 1];
    }
    if DistinctKeys(params) {
      forall j | 0 <= j < |params[1..]| ensures params[1..][j].0 != params[0].0 {
        assert params[1..][j] == params[j + 1];
      }
      forall i, j | 0 <= i < j < |params[1..]| ensures params[1..][i].0 != params[1..][j].0 {
        assert params[1..][i] == params[i + 1] && params[1..][j] == params[j + 1];
      }
    }
  }

  /** The names the missing pairs carry are names of the parameters. */
  lemma {:induction false} MissingFromKeys(q: Query, params: Params, k: string)
    requires k !in KeySet(params)
    ensures !QueryHas(MissingFrom(q, params), k)
    decreases |params|
  {
    if params != [] {
      TailKeys(params);
      MissingFromKeys(q, params[1..], k);
      var (k0, v0) := params[0];
      var head: Query := if Present(v0) && !QueryHas(q, k0) then [(k0, v0.value)] else [];
      assert !QueryHas(head, k);
      QueryHasAppend(head, MissingFrom(q, params[1..]), k);
    }
  }

  lemma {:induction false} AppendMissingFrom(q: Query, acc: Query, params: Params)
    requires DistinctKeys(params)
    requires forall k :: QueryHas(acc, k) ==> k !in KeySet(params)
    ensures AppendMissing(q + acc, params) == q + acc + MissingFrom(q, params)
    decreases |params|
  {
    if params != [] {
      var (k, v) := params[0];
      QueryHasAppend(q, acc, k);
      TailKeys(params);
      if Present(v) && !QueryHas(q, k) {
        var acc' := acc + [(k, v.value)];
        forall k' | QueryHas(acc', k') ensures k' !in KeySet(params[1..]) {
          QueryHasAppend(acc, [(k, v.value)], k');
        }
        assert AppendMissing(q + acc, params) == AppendMissing(q + acc', params[1..]) by {
          assert q + acc + [(k, v.value)] == q + acc';
        }
        AppendMissingFrom(q, acc', params[1..]);
        assert MissingFrom(q, params) == [(k, v.value)] + MissingFrom(q, params[1..]);
        assert q + acc + MissingFrom(q, params) == q + acc' + MissingFrom(q, params[1..]);
      } else {
        assert AppendMissing(q + acc, params) == AppendMissing(q + acc, params[1..]);
        AppendMissingFrom(q, acc, params[1..]);
        assert MissingFrom(q, params) == MissingFrom(q, params[1..]);
      }
    }
  }

  /** With distinct parameter names, `AppendMissing` keeps the query and adds exactly the
      missing pairs, in parameter order. */
  lemma AppendMissingSpec(q: Query, params: Params)
    requires DistinctKeys(params)
    ensures AppendMissing(q, params) == q + MissingFrom(q, params)
  {
    AppendMissingFrom(q, [], params);
    assert q + [] == q;
  }

  /** A present parameter whose name the query lacks is among the pairs added; no pair is added
      for a name the query already has, so no existing value is overwritten or repeated. */
  lemma {:induction false} MissingFromContents(q: Query, params: Params, k: string, v: string)
    ensures (k, v) in MissingFrom(q, params) <==>
      !QueryHas(q, k) && v != "" && (k, Some(v)) in params
    decreases |params|
  {
    if params != [] {
      MissingFromContents(q, params[1..], k, v);
      var (k0, v0) := params[0];
      if (k, Some(v)) in params && (k, Some(v)) != params[0] {
        var i :| 0 <= i < |params| && params[i] == (k, Some(v));
        assert params[1..][i - 1] == (k, Some(v));
      }
      if (k, Some(v)) in params[1..] {
        var i :| 0 <= i < |params[1..]| && params[1..][i] == (k, Some(v));
        assert params[i + 1] == (k, Some(v));
      }
    }
  }
}
