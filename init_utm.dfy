/** `initUtm`: the page's campaign parameters. On start-up and on every route change they are
    taken, in this order of priority, from the URL's `utm_*` query parameters, from the
    referrer, from session storage, or from the defaults; the chosen parameters become the
    current ones, are stored, and a change event is dispatched when they differ from the
    previous ones. */
module InitUtm {
  import opened Wrappers
  import opened UtmParams
  import Referrer

  /** The session storage key. */
  const StorageKey := "utm_params"

  /** `getDefaultUtmParams()` */
  const DefaultUtmParams: Params := Campaign("other", "organic", "default")

  /** `filterEmptyValues(obj)`: the entries whose value is neither `undefined` nor `''`, in
      order. */
  function FilterEmptyValues(p: Params): (r: Params)
    ensures |r| <= |p|
    ensures forall i :: 0 <= i < |r| ==> Present(r[i].1)
  {
    if p == [] then [] else (if Present(p[0].1) then [p[0]] else []) + FilterEmptyValues(p[1..])
  }

  /** The entries kept are exactly the entries with a present value. */
  lemma {:induction false} FilterEmptyValuesKeeps(p: Params, e: (string, Option<string>))
    ensures e in FilterEmptyValues(p) <==> e in p && Present(e.1)
  {
    if p != [] {
      FilterEmptyValuesKeeps(p[1..], e);
      assert e in p <==> e == p[0] || e in p[1..];
    }
  }

  lemma {:induction false} FilterEmptyValuesKeys(p: Params)
    ensures KeySet(FilterEmptyValues(p)) <= KeySet(p)
  {
    if p != [] {
      TailKeys(p);
      FilterEmptyValuesKeys(p[1..]);
      var rest := FilterEmptyValues(p[1..]);
      var r := FilterEmptyValues(p);
      forall i | 0 <= i < |r| ensures r[i].0 in KeySet(p) {
        if i >= |r| - |rest| { assert r[i] == rest[i - (|r| - |rest|)]; }
      }
    }
  }

  /** Filtering keeps distinct names distinct ... */
  lemma {:induction false} FilterEmptyValuesDistinct(p: Params)
    requires DistinctKeys(p)
    ensures DistinctKeys(FilterEmptyValues(p))
  {
    if p != [] {
      TailKeys(p);
      FilterEmptyValuesDistinct(p[1..]);
      FilterEmptyValuesKeys(p[1..]);
      var rest := FilterEmptyValues(p[1..]);
      if Present(p[0].1) {
        var r := [p[0]] + rest;
        assert p[0].0 !in KeySet(rest);
        forall i, j | 0 <= i < j < |r| ensures r[i].0 != r[j].0 {
          assert r[j] == rest[j - 1];
          if i > 0 { assert r[i] == rest[i - 1]; } else { assert rest[j - 1].0 in KeySet(rest); }
        }
      }
    }
  }

  /** ... and keeps exactly the present values. */
  lemma {:induction false} FilterEmptyValuesGet(p: Params, k: string)
    requires DistinctKeys(p)
    ensures Get(FilterEmptyValues(p), k) == if Present(Get(p, k)) then Get(p, k) else None
  {
    if p != [] {
      TailKeys(p);
      FilterEmptyValuesGet(p[1..], k);
      var rest := FilterEmptyValues(p[1..]);
      if p[0].0 == k && !Present(p[0].1) {
        FilterEmptyValuesKeys(p[1..]);
        assert k !in KeySet(rest);
        assert !HasKey(rest, k) by {
          forall i | 0 <= i < |rest| ensures rest[i].0 != k {
            assert rest[i].0 in KeySet(rest);
          }
        }
      }
      if Present(p[0].1) {
        var r := [p[0]] + rest;
        assert r[1..] == rest && r[0] == p[0];
        assert FilterEmptyValues(p) == r;
        assert Get(r, k) == if p[0].0 == k then p[0].1 else Get(rest, k);
        assert Get(p, k) == if p[0].0 == k then p[0].1 else Get(p[1..], k);
      } else {
        assert FilterEmptyValues(p) == [] + rest;
        assert [] + rest == rest;
      }
    }
  }

  /** Parameters whose values are all present are left as they are, so filtering twice is
      filtering once. */
  lemma {:induction false} FilterEmptyValuesClean(p: Params)
    requires forall i :: 0 <= i < |p| ==> Present(p[i].1)
    ensures FilterEmptyValues(p) == p
  {
    if p != [] {
      FilterEmptyValuesClean(p[1..]);
    }
  }

  /** `urlParams.get(name) || undefined` */
  function FromQuery(search: Query, name: string): (v: Option<string>)
    ensures v.None? || Present(v)
  {
    var v := QueryGet(search, name);
    if Present(v) then v else None
  }

  /** The five `utm_*` entries read from the URL, each `undefined` when missing or empty. */
  function UtmFromUrl(search: Query): Params {
    [(UtmSource, FromQuery(search, UtmSource)),
     (UtmMedium, FromQuery(search, UtmMedium)),
     (UtmCampaign, FromQuery(search, UtmCampaign)),
     (UtmContent, FromQuery(search, UtmContent)),
     (UtmTerm, FromQuery(search, UtmTerm))]
  }

  /** `Object.values(utmFromUrl).some(value => value !== undefined)` */
  predicate HasUtmParamsInUrl(p: Params) {
    exists i :: 0 <= i < |p| && p[i].1 != None
  }

  /** Where the chosen parameters come from. */
  datatype UtmOrigin = FromUrl | FromReferrer | FromStorage | FromDefault

  /** The choice `extractAndProcessUtm` makes, given the URL's query, the referrer (as
      `detectReferrer` takes it) and what `getStoredUtm` returns. */
  function ChooseUtm(search: Query, referrer: Option<string>, hostname: Option<string>, stored: Params): (UtmOrigin, Params) {
    var fromUrl := UtmFromUrl(search);
    if HasUtmParamsInUrl(fromUrl) then (FromUrl, FilterEmptyValues(fromUrl))
    else
      var fromReferrer := FilterEmptyValues(Referrer.DetectReferrer(referrer, hostname));
      if |fromReferrer| > 0 then (FromReferrer, fromReferrer)
      else
        var fromStorage := FilterEmptyValues(stored);
        if |fromStorage| > 0 then (FromStorage, fromStorage)
        else (FromDefault, DefaultUtmParams)
  }

  /** The five names are distinct. */
  lemma UtmNamesDistinct(search: Query)
    ensures DistinctKeys(UtmFromUrl(search))
  {
    assert UtmSource[4] == 's' && UtmMedium[4] == 'm' && UtmCampaign[4] == 'c' && UtmContent[4] == 'c' && UtmTerm[4] == 't';
    assert UtmCampaign[5] == 'a' && UtmContent[5] == 'o';
  }

  /** On entries that are present or `undefined`, some value is defined exactly when filtering
      keeps something. */
  lemma DefinedIffKept(p: Params)
    requires forall i :: 0 <= i < |p| ==> p[i].1.None? || Present(p[i].1)
    ensures HasUtmParamsInUrl(p) <==> FilterEmptyValues(p) != []
  {
    if HasUtmParamsInUrl(p) {
      var i :| 0 <= i < |p| && p[i].1 != None;
      FilterEmptyValuesKeeps(p, p[i]);
    }
    if FilterEmptyValues(p) != [] {
      var e := FilterEmptyValues(p)[0];
      FilterEmptyValuesKeeps(p, e);
      var i :| 0 <= i < |p| && p[i] == e;
    }
  }

  /** Every value read from the URL is present or `undefined`. */
  lemma UtmFromUrlValues(search: Query)
    ensures var p := UtmFromUrl(search);
      DistinctKeys(p) && (HasUtmParamsInUrl(p) <==> FilterEmptyValues(p) != [])
  {
    UtmNamesDistinct(search);
    UrlDefinedIffKept(search);
  }

  lemma UrlDefinedIffKept(search: Query)
    ensures HasUtmParamsInUrl(UtmFromUrl(search)) <==> FilterEmptyValues(UtmFromUrl(search)) != []
  {
    var p := UtmFromUrl(search);
    assert forall i :: 0 <= i < |p| ==> p[i].1.None? || Present(p[i].1);
    DefinedIffKept(p);
  }

  /** The referrer's parameters are used only when the URL has none, the stored ones only when
      neither the URL nor the referrer gives any, and the defaults only as the last resort; a
      referrer's parameters are used as detected. */
  lemma ChooseUtmPriority(search: Query, referrer: Option<string>, hostname: Option<string>, stored: Params)
    ensures var (origin, chosen) := ChooseUtm(search, referrer, hostname, stored);
      var fromUrl := FilterEmptyValues(UtmFromUrl(search));
      var detected := Referrer.DetectReferrer(referrer, hostname);
      (origin == FromUrl <==> fromUrl != []) &&
      (origin == FromReferrer <==> fromUrl == [] && detected != []) &&
      (origin == FromStorage <==> fromUrl == [] && detected == [] && FilterEmptyValues(stored) != []) &&
      (origin == FromReferrer ==> chosen == detected) &&
      (origin == FromStorage ==> chosen == FilterEmptyValues(stored)) &&
      (origin == FromDefault ==> chosen == DefaultUtmParams)
  {
    UrlDefinedIffKept(search);
    var detected := Referrer.DetectReferrer(referrer, hostname);
    if detected != [] {
      FilterEmptyValuesClean(detected);
    } else {
      assert FilterEmptyValues(detected) == [];
    }
  }

  /** A name taken from the URL is one of the five `utm_*` names. */
  lemma UrlChoiceNames(search: Query)
    ensures KeySet(FilterEmptyValues(UtmFromUrl(search))) <= {UtmSource, UtmMedium, UtmCampaign, UtmContent, UtmTerm}
  {
    var p := UtmFromUrl(search);
    FilterEmptyValuesKeys(p);
    forall i | 0 <= i < |p| ensures p[i].0 in {UtmSource, UtmMedium, UtmCampaign, UtmContent, UtmTerm} {
    }
  }

  /** Whatever the inputs, the chosen parameters are non-empty, have distinct names and only
      present values. */
  lemma ChooseUtmWellFormed(search: Query, referrer: Option<string>, hostname: Option<string>, stored: Params)
    requires DistinctKeys(stored)
    ensures var chosen := ChooseUtm(search, referrer, hostname, stored).1;
      chosen != [] && DistinctKeys(chosen) && forall i :: 0 <= i < |chosen| ==> Present(chosen[i].1)
  {
    var fromUrl := UtmFromUrl(search);
    UtmFromUrlValues(search);
    var detected := Referrer.DetectReferrer(referrer, hostname);
    if HasUtmParamsInUrl(fromUrl) {
      FilterEmptyValuesDistinct(fromUrl);
    } else if |FilterEmptyValues(detected)| > 0 {
      CampaignDistinct(detected);
      FilterEmptyValuesDistinct(detected);
    } else if |FilterEmptyValues(stored)| > 0 {
      FilterEmptyValuesDistinct(stored);
    } else {
      CampaignDistinct(DefaultUtmParams);
    }
  }

  /** The three names of a campaign are distinct. */
  lemma CampaignDistinct(p: Params)
    requires p == [] || (|p| == 3 && p[0].0 == UtmSource && p[1].0 == UtmMedium && p[2].0 == UtmCampaign)
    ensures DistinctKeys(p)
  {
    assert UtmSource[4] == 's' && UtmMedium[4] == 'm' && UtmCampaign[4] == 'c';
  }

  /** `JSON.parse(JSON.stringify(params))`: entries whose value is `undefined` are dropped. */
  function Stringified(p: Params): (r: Params)
    ensures forall e :: e in r <==> e in p && e.1.Some?
  {
    if p == [] then []
    else
      var r := (if p[0].1.Some? then [p[0]] else []) + Stringified(p[1..]);
      assert forall e :: e in p <==> e == p[0] || e in p[1..];
      r
  }

  lemma {:induction false} StringifiedClean(p: Params)
    requires forall i :: 0 <= i < |p| ==> Present(p[i].1)
    ensures Stringified(p) == p
  {
    if p != [] {
      StringifiedClean(p[1..]);
    }
  }

  /** `getStoredUtm()`: the stored parameters, `{}` when nothing is stored or storage is not
      available. */
  function StoredUtm(storageAvailable: bool, storage: map<string, Params>): Params {
    if storageAvailable && StorageKey in storage then storage[StorageKey] else []
  }

  /** The storage after `storeUtm(params)`; where storage throws, nothing is written. */
  function StoreUtm(storageAvailable: bool, storage: map<string, Params>, params: Params): (s: map<string, Params>)
    ensures storageAvailable ==> StoredUtm(storageAvailable, s) == Stringified(params)
    ensures forall k :: k in storage && k != StorageKey ==> k in s && s[k] == storage[k]
  {
    if storageAvailable then storage[StorageKey := Stringified(params)] else storage
  }

  /** Running the choice again, with what the first run stored, chooses the same parameters:
      a route change that keeps the query and the referrer dispatches no event. */
  lemma ChooseUtmStable(search: Query, referrer: Option<string>, hostname: Option<string>, stored: Params)
    requires DistinctKeys(stored)
    ensures var chosen := ChooseUtm(search, referrer, hostname, stored).1;
      ChooseUtm(search, referrer, hostname, Stringified(chosen)).1 == chosen
  {
    var chosen := ChooseUtm(search, referrer, hostname, stored).1;
    ChooseUtmWellFormed(search, referrer, hostname, stored);
    StringifiedClean(chosen);
    FilterEmptyValuesClean(chosen);
  }

  /** The parameters chosen on a second run compare equal under `isEqual` to those of the
      first run. */
  lemma SecondExtractionSilent(search: Query, referrer: Option<string>, hostname: Option<string>, stored: Params)
    requires DistinctKeys(stored)
    ensures var chosen := ChooseUtm(search, referrer, hostname, stored).1;
      ShallowEqual(chosen, ChooseUtm(search, referrer, hostname, Stringified(chosen)).1)
  {
    ChooseUtmStable(search, referrer, hostname, stored);
  }

  /** `isEqual(obj1, obj2)`: as many keys, and every key of `obj1` reads the same in both. */
  predicate ShallowEqual(a: Params, b: Params) {
    |a| == |b| && forall i :: 0 <= i < |a| ==> Get(a, a[i].0) == Get(b, a[i].0)
  }

  /** `isEqual`, with its early returns. */
  method IsEqual(a: Params, b: Params) returns (eq: bool)
    ensures eq == ShallowEqual(a, b)
  {
    if |a| != |b| {
      return false;
    }
    var i := 0;
    while i < |a|
      invariant 0 <= i <= |a|
      invariant forall j :: 0 <= j < i ==> Get(a, a[j].0) == Get(b, a[j].0)
    {
      if Get(a, a[i].0) != Get(b, a[i].0) {
        return false;
      }
      i := i + 1;
    }
    return true;
  }

  /** On objects without `undefined` values, `isEqual` holds exactly when both have the same
      entries, in whatever order. */
  lemma ShallowEqualIffSameEntries(a: Params, b: Params)
    requires DistinctKeys(a) && DistinctKeys(b)
    requires forall i :: 0 <= i < |a| ==> a[i].1.Some?
    ensures ShallowEqual(a, b) <==> |a| == |b| && forall e :: e in a ==> e in b
  {
    if ShallowEqual(a, b) {
      forall e | e in a ensures e in b {
        var i :| 0 <= i < |a| && a[i] == e;
        GetAt(a, i);
        var j := GetFound(b, e.0);
        assert b[j] == e;
      }
    }
    if |a| == |b| && forall e :: e in a ==> e in b {
      forall i | 0 <= i < |a| ensures Get(a, a[i].0) == Get(b, a[i].0) {
        GetAt(a, i);
        assert a[i] in b;
        var j :| 0 <= j < |b| && b[j] == a[i];
        GetAt(b, j);
      }
    }
  }

  /** `undefined` values make different objects equal: a missing key reads as `undefined`. */
  lemma ShallowEqualUndefined()
    ensures ShallowEqual([(UtmSource, None)], [(UtmTerm, None)])
  {
  }

  /** The page-wide state `initUtm` works on: the current parameters, session storage, the
      location's query and the change events dispatched so far. */
  class UtmStore {
    /** Whether session storage can be used (it throws otherwise). */
    const storageAvailable: bool
    var current: Params
    var storage: map<string, Params>
    var search: Query
    /** The `utmParams` of each `utm_params_changed` event, in dispatch order. */
    var changeEvents: seq<Params>
    /** How many times `history.replaceState` rewrote the URL. */
    var urlReplacements: nat

    constructor(storageAvailable: bool, storage: map<string, Params>, search: Query)
      ensures this.storageAvailable == storageAvailable && this.storage == storage && this.search == search
      ensures current == [] && changeEvents == [] && urlReplacements == 0
    {
      this.storageAvailable := storageAvailable;
      this.storage := storage;
      this.search := search;
      current := [];
      changeEvents := [];
      urlReplacements := 0;
    }

    /** `getCurrentUtmParams()` */
    method GetCurrentUtmParams() returns (r: Params)
      ensures r == current
    {
      r := current;
    }

    /** `getStoredUtm()` */
    method GetStoredUtm() returns (r: Params)
      ensures r == StoredUtm(storageAvailable, storage)
    {
      if storageAvailable && StorageKey in storage {
        r := storage[StorageKey];
      } else {
        r := [];
      }
    }

    /** `storeUtm(params)` */
    method StoreUtmParams(params: Params)
      modifies this
      ensures storage == StoreUtm(storageAvailable, old(storage), params)
      ensures current == old(current) && search == old(search)
      ensures changeEvents == old(changeEvents) && urlReplacements == old(urlReplacements)
    {
      if storageAvailable {
        storage := storage[StorageKey := Stringified(params)];
      }
    }

    /** `updateUtmParams(params)`: replace, store, and dispatch an event only on a change. */
    method UpdateUtmParams(params: Params)
      modifies this
      ensures current == params
      ensures storage == StoreUtm(storageAvailable, old(storage), params)
      ensures changeEvents == old(changeEvents) + (if ShallowEqual(old(current), params) then [] else [params])
      ensures search == old(search) && urlReplacements == old(urlReplacements)
    {
      var same := IsEqual(current, params);
      current := params;
      StoreUtmParams(params);
      if !same {
        changeEvents := changeEvents + [current];
      }
    }

    /** `extractAndProcessUtm()`, with the referrer as `detectReferrer` takes it. */
    method ExtractAndProcessUtm(referrer: Option<string>, hostname: Option<string>)
      modifies this
      ensures var chosen := ChooseUtm(old(search), referrer, hostname, StoredUtm(storageAvailable, old(storage))).1;
        current == chosen &&
        storage == StoreUtm(storageAvailable, old(storage), chosen) &&
        changeEvents == old(changeEvents) + (if ShallowEqual(old(current), chosen) then [] else [chosen])
      ensures search == old(search) && urlReplacements == old(urlReplacements)
    {
      var fromUrl := UtmFromUrl(search);
      if HasUtmParamsInUrl(fromUrl) {
        UpdateUtmParams(FilterEmptyValues(fromUrl));
        return;
      }
      var fromReferrer := Referrer.DetectReferrer(referrer, hostname);
      if |FilterEmptyValues(fromReferrer)| > 0 {
        UpdateUtmParams(FilterEmptyValues(fromReferrer));
        return;
      }
      var stored := GetStoredUtm();
      if |FilterEmptyValues(stored)| > 0 {
        UpdateUtmParams(FilterEmptyValues(stored));
        return;
      }
      UpdateUtmParams(DefaultUtmParams);
    }

    /** `applyUtmParamsToUrl(params)`: each missing parameter is set on the query, and the URL
        is replaced once if anything was added. */
    method ApplyUtmParamsToUrl(params: Params)
      modifies this
      ensures search == AppendMissing(old(search), params)
      ensures urlReplacements == old(urlReplacements) + (if |search| > |old(search)| then 1 else 0)
      ensures current == old(current) && storage == old(storage) && changeEvents == old(changeEvents)
    {
      var currentParams := search;
      var hasChanges := false;
      var i := 0;
      while i < |params|
        invariant 0 <= i <= |params|
        invariant AppendMissing(search, params) == AppendMissing(currentParams, params[i..])
        invariant |search| <= |currentParams| && currentParams[..|search|] == search
        invariant hasChanges <==> |currentParams| > |search|
      {
        assert params[i..][0] == params[i] && params[i..][1..] == params[i + 1..];
        var (key, value) := params[i];
        if Present(value) && !QueryHas(currentParams, key) {
          currentParams := currentParams + [(key, value.value)];
          hasChanges := true;
        }
        i := i + 1;
      }
      assert params[i..] == [];
      AppendMissingGrows(search, params);
      if hasChanges {
        search := currentParams;
        urlReplacements := urlReplacements + 1;
      }
    }
  }

  /** Appending only adds at the end. */
  lemma {:induction false} AppendMissingGrows(q: Query, params: Params)
    ensures var r := AppendMissing(q, params); |q| <= |r| && r[..|q|] == q
    decreases |params|
  {
    if params != [] {
      var (k, v) := params[0];
      var next := if Present(v) && !QueryHas(q, k) then q + [(k, v.value)] else q;
      AppendMissingGrows(next, params[1..]);
      var r := AppendMissing(q, params);
      assert r[..|next|][..|q|] == r[..|q|];
    }
  }
}
