/** The vendor response-header protocol of `PostFileAsync`: custom headers
    named `x-dg-<key>` (current prefix) or `dg-<key>` (legacy prefix) are
    reported under their short `<key>` when the caller's allow-list asks for
    it, and the response's media type is reported as `content-type`.

    `Extraction` is the specification (a left-to-right fold over the header
    list); `ExtractVendorHeaders` is the source's index loop that grows a
    dictionary with `Add`, proved equal to it. */
module VendorHeaders {
  import opened Wrappers
  import opened Http

  const CurrentPrefix := "x-dg-"
  const LegacyPrefix := "dg-"
  const ContentTypeKey := "content-type"

  /** The output key a lower-cased header name yields, if any: the first of
      the three rules whose candidate key is allow-listed. */
  function Rule(name: string, keys: seq<string>): (r: Option<string>)
    ensures r.Some? ==> r.value in keys
    ensures r.Some? ==> name == CurrentPrefix + r.value || name == LegacyPrefix + r.value || name == r.value
  {
    if StartsWith(name, CurrentPrefix) && name[5..] in keys then
      Some(name[5..])
    else if StartsWith(name, LegacyPrefix) && name[3..] in keys then
      Some(name[3..])
    else if name in keys then
      Some(name)
    else
      None
  }

  /** The current prefix is tried first: `x-dg-<k>` yields `k` whenever `k`
      is allow-listed, even if the raw name is allow-listed too. */
  lemma CurrentPrefixFirst(k: string, keys: seq<string>)
    requires k in keys
    ensures Rule(CurrentPrefix + k, keys) == Some(k)
  {
    assert (CurrentPrefix + k)[5..] == k;
  }

  /** Then the legacy prefix: `dg-<k>` yields `k` whenever `k` is allow-listed
      (such a name never carries the current prefix). */
  lemma LegacyPrefixSecond(k: string, keys: seq<string>)
    requires k in keys
    ensures Rule(LegacyPrefix + k, keys) == Some(k)
  {
    var name := LegacyPrefix + k;
    assert name[0] == 'd' != CurrentPrefix[0];
    assert name[3..] == k;
  }

  /** The raw name is used only when neither prefix rule applies, and a name
      that no rule matches yields nothing, so the header is dropped. */
  lemma RawNameLast(name: string, keys: seq<string>)
    requires !(StartsWith(name, CurrentPrefix) && name[5..] in keys)
    requires !(StartsWith(name, LegacyPrefix) && name[3..] in keys)
    ensures Rule(name, keys) == if name in keys then Some(name) else None
  {
  }

  /** The output key of header `h`: its name is lower-cased before any rule. */
  function OutKey(h: Header, keys: seq<string>): Option<string> {
    Rule(ToLower(h.name), keys)
  }

  /** Header `i` is the first one whose lower-cased name is `key`. */
  predicate FirstNamed(all: seq<Header>, key: string, i: int) {
    0 <= i < |all| && ToLower(all[i].name) == key
    && forall j :: 0 <= j < i ==> ToLower(all[j].name) != key
  }

  /** The values of the first header whose name equals `key` ignoring case,
      and `[]` when no header has that name.  This is what a successful
      `GetValues(key)` returns; for a name no header has, `GetValues` throws
      instead (see `GetValues` below), which the loop never meets because it
      looks up only the names of the list's own headers. */
  function ValuesOf(all: seq<Header>, key: string): (vs: seq<string>)
    ensures forall i :: FirstNamed(all, key, i) ==> vs == all[i].values
    ensures (forall i :: 0 <= i < |all| ==> ToLower(all[i].name) != key) ==> vs == []
    ensures vs != [] ==> exists i :: 0 <= i < |all| && ToLower(all[i].name) == key && all[i].values == vs
  {
    if all == [] then []
    else if ToLower(all[0].name) == key then all[0].values
    else
      assert forall i :: FirstNamed(all, key, i) ==> i > 0 && FirstNamed(all[1..], key, i - 1);
      assert forall i :: 0 <= i < |all[1..]| ==> all[1..][i] == all[i + 1];
      ValuesOf(all[1..], key)
  }

  /** `response.Headers.GetValues(key)`: the values of the first header named
      `key` up to case, and an exception when no header has that name. */
  function GetValues(all: seq<Header>, key: string): (r: Result<seq<string>, Error>)
    ensures r.Success? <==> exists i :: 0 <= i < |all| && ToLower(all[i].name) == key
    ensures r.Success? ==> r.value == ValuesOf(all, key)
    ensures r.Failure? ==> r.error == MissingHeader(key)
  {
    if all == [] then Failure(MissingHeader(key))
    else if ToLower(all[0].name) == key then Success(all[0].values)
    else
      assert forall i :: 0 <= i < |all[1..]| ==> all[1..][i] == all[i + 1];
      assert forall i :: 1 <= i < |all| ==> all[i] == all[1..][i - 1];
      GetValues(all[1..], key)
  }

  /** The loop looks up the lower-cased name of a header of the list itself,
      so `GetValues` never throws there. */
  lemma GetValuesOfOwnName(all: seq<Header>, i: nat)
    requires i < |all|
    ensures GetValues(all, ToLower(all[i].name)) == Success(ValuesOf(all, ToLower(all[i].name)))
  {
  }

  /** Header names that are distinct up to case, as .NET's header collection
      presents them (it merges names that differ only in case). */
  ghost predicate DistinctNames(hs: seq<Header>) {
    forall i, j :: 0 <= i < j < |hs| ==> ToLower(hs[i].name) != ToLower(hs[j].name)
  }

  /** On such a list, `GetValues` of a header's own name gives its values. */
  lemma ValuesOfOwnName(hs: seq<Header>, i: nat)
    requires DistinctNames(hs) && i < |hs|
    ensures ValuesOf(hs, ToLower(hs[i].name)) == hs[i].values
  {
    assert FirstNamed(hs, ToLower(hs[i].name), i);
  }

  /** `GetValues(key).FirstOrDefault() ?? ""`. */
  function FirstValue(values: seq<string>): (v: string)
    ensures values == [] ==> v == ""
    ensures values != [] ==> v == values[0]
  {
    if values == [] then "" else values[0]
  }

  /** `Dictionary.Add`: inserting a key that is already present throws. */
  function Add(m: map<string, string>, k: string, v: string): (r: Result<map<string, string>, Error>)
    ensures k in m <==> r.Failure?
    ensures r.Failure? ==> r.error == DuplicateKey(k)
    ensures r.Success? ==> r.value.Keys == m.Keys + {k} && r.value[k] == v
    ensures r.Success? ==> forall j :: j in m ==> r.value[j] == m[j]
  {
    if k in m then Failure(DuplicateKey(k)) else Success(m[k := v])
  }

  /** What the loop body does with header `h` to the dictionary `acc`. */
  function Step(acc: map<string, string>, h: Header, all: seq<Header>, keys: seq<string>): Result<map<string, string>, Error> {
    match OutKey(h, keys)
    case None => Success(acc)
    case Some(k) => Add(acc, k, FirstValue(ValuesOf(all, ToLower(h.name))))
  }

  /** The dictionary after the loop has visited the headers `hs` (a prefix
      of `all`, the full list that `GetValues` consults). */
  function Scan(hs: seq<Header>, all: seq<Header>, keys: seq<string>): Result<map<string, string>, Error>
    decreases |hs|
  {
    if hs == [] then Success(map[])
    else
      var acc :- Scan(hs[..|hs| - 1], all, keys);
      Step(acc, hs[|hs| - 1], all, keys)
  }

  /** One more iteration of the loop. */
  lemma ScanExtend(all: seq<Header>, i: nat, keys: seq<string>, acc: map<string, string>)
    requires i < |all|
    requires Scan(all[..i], all, keys) == Success(acc)
    ensures Scan(all[..i + 1], all, keys) == Step(acc, all[i], all, keys)
  {
    assert all[..i + 1][..i] == all[..i];
  }

  /** The result of the whole extraction: the loop over all headers, then the
      synthesized `content-type` entry when the allow-list asks for it. */
  function Extraction(headers: seq<Header>, keys: seq<string>, mediaType: Option<string>): (r: Result<map<string, string>, Error>)
    ensures r.Success? && ContentTypeKey in keys ==>
              ContentTypeKey in r.value && r.value[ContentTypeKey] == mediaType.GetOr("")
    ensures r.Success? && ContentTypeKey !in keys ==> r == Scan(headers, headers, keys)
  {
    var m :- Scan(headers, headers, keys);
    if ContentTypeKey in keys then Add(m, ContentTypeKey, mediaType.GetOr("")) else Success(m)
  }

  /** The header-extraction loop of `PostFileAsync`. */
  method ExtractVendorHeaders(headers: seq<Header>, keys: seq<string>, mediaType: Option<string>)
    returns (r: Result<map<string, string>, Error>)
    ensures r == Extraction(headers, keys, mediaType)
  {
    var result: map<string, string> := map[];
    var i := 0;
    while i < |headers|
      invariant 0 <= i <= |headers|
      invariant Scan(headers[..i], headers, keys) == Success(result)
    {
      ScanExtend(headers, i, keys, result);
      var key := ToLower(headers[i].name);
      GetValuesOfOwnName(headers, i);
      var value := FirstValue(GetValues(headers, key).value);

      if StartsWith(key, CurrentPrefix) {
        var newKey := key[5..];
        if newKey in keys {
          if newKey in result {
            ScanFailurePersists(headers, i + 1, keys);
            return Failure(DuplicateKey(newKey));
          }
          result := result[newKey := value];
          i := i + 1;
          continue;
        }
      }
      if StartsWith(key, LegacyPrefix) {
        var newKey := key[3..];
        if newKey in keys {
          if newKey in result {
            ScanFailurePersists(headers, i + 1, keys);
            return Failure(DuplicateKey(newKey));
          }
          result := result[newKey := value];
          i := i + 1;
          continue;
        }
      }
      if key in keys {
        if key in result {
          ScanFailurePersists(headers, i + 1, keys);
          return Failure(DuplicateKey(key));
        }
        result := result[key := value];
      }
      i := i + 1;
    }
    assert headers[..|headers|] == headers;

    if ContentTypeKey in keys {
      if ContentTypeKey in result {
        return Failure(DuplicateKey(ContentTypeKey));
      }
      result := result[ContentTypeKey := mediaType.GetOr("")];
    }
    r := Success(result);
  }

  /** Once an `Add` has thrown, the rest of the loop never runs: the failure
      of a prefix is the failure of the whole list. */
  lemma {:induction false} ScanFailurePersists(all: seq<Header>, j: nat, keys: seq<string>)
    requires j <= |all|
    requires Scan(all[..j], all, keys).Failure?
    ensures Scan(all, all, keys) == Scan(all[..j], all, keys)
  {
    ScanPrefixFailure(all, all, j, keys);
  }

  lemma {:induction false} ScanPrefixFailure(hs: seq<Header>, all: seq<Header>, j: nat, keys: seq<string>)
    requires j <= |hs|
    requires Scan(hs[..j], all, keys).Failure?
    ensures Scan(hs, all, keys) == Scan(hs[..j], all, keys)
    decreases |hs| - j
  {
    if j < |hs| {
      var p := hs[..|hs| - 1];
      assert p[..j] == hs[..j];
      ScanPrefixFailure(p, all, j, keys);
    } else {
      assert hs[..j] == hs;
    }
  }

  /** The keys a header list produces, in a set. */
  ghost function Produced(hs: seq<Header>, keys: seq<string>): set<string>
    decreases |hs|
  {
    if hs == [] then {}
    else
      Produced(hs[..|hs| - 1], keys)
      + (match OutKey(hs[|hs| - 1], keys) case Some(k) => {k} case None => {})
  }

  /** `k` is produced exactly when some header's rule yields it. */
  lemma {:induction false} ProducedMembers(hs: seq<Header>, keys: seq<string>, k: string)
    ensures k in Produced(hs, keys) <==> exists i :: 0 <= i < |hs| && OutKey(hs[i], keys) == Some(k)
    decreases |hs|
  {
    if hs != [] {
      var p := hs[..|hs| - 1];
      ProducedMembers(p, keys, k);
      if k in Produced(p, keys) {
        var i :| 0 <= i < |p| && OutKey(p[i], keys) == Some(k);
        assert hs[i] == p[i];
      }
      if exists i :: 0 <= i < |hs| && OutKey(hs[i], keys) == Some(k) {
        var i :| 0 <= i < |hs| && OutKey(hs[i], keys) == Some(k);
        if i < |p| {
          assert p[i] == hs[i];
        }
      }
    }
  }

  /** No two headers yield the same output key. */
  ghost predicate NoCollision(hs: seq<Header>, keys: seq<string>) {
    forall i, j :: 0 <= i < j < |hs| && OutKey(hs[i], keys).Some? ==> OutKey(hs[i], keys) != OutKey(hs[j], keys)
  }

  /** A successful scan holds exactly the produced keys. */
  lemma {:induction false} ScanKeys(hs: seq<Header>, all: seq<Header>, keys: seq<string>)
    requires Scan(hs, all, keys).Success?
    ensures Scan(hs, all, keys).value.Keys == Produced(hs, keys)
    decreases |hs|
  {
    if hs != [] {
      ScanKeys(hs[..|hs| - 1], all, keys);
    }
  }

  /** The loop succeeds exactly when no two headers compete for one key. */
  lemma {:induction false} ScanSucceedsIffNoCollision(hs: seq<Header>, all: seq<Header>, keys: seq<string>)
    ensures Scan(hs, all, keys).Success? <==> NoCollision(hs, keys)
    decreases |hs|
  {
    if hs != [] {
      var p := hs[..|hs| - 1];
      var last := hs[|hs| - 1];
      ScanSucceedsIffNoCollision(p, all, keys);
      assert forall i :: 0 <= i < |p| ==> p[i] == hs[i];
      if Scan(p, all, keys).Success? {
        ScanKeys(p, all, keys);
        match OutKey(last, keys)
        case None =>
        case Some(k) =>
          ProducedMembers(p, keys, k);
          if k in Produced(p, keys) {
            var i :| 0 <= i < |p| && OutKey(p[i], keys) == Some(k);
            assert OutKey(hs[i], keys) == OutKey(hs[|hs| - 1], keys);
          }
      } else {
        assert !NoCollision(p, keys);
        var i, j :| 0 <= i < j < |p| && OutKey(p[i], keys).Some? && OutKey(p[i], keys) == OutKey(p[j], keys);
        assert OutKey(hs[i], keys) == OutKey(hs[j], keys);
      }
    }
  }

  /** Every header whose rule yields a key is in a successful scan, with the
      first value `GetValues` gives for its lower-cased name. */
  lemma {:induction false} ScanValues(hs: seq<Header>, all: seq<Header>, keys: seq<string>, i: nat)
    requires i < |hs|
    requires Scan(hs, all, keys).Success?
    requires OutKey(hs[i], keys).Some?
    ensures OutKey(hs[i], keys).value in Scan(hs, all, keys).value
    ensures Scan(hs, all, keys).value[OutKey(hs[i], keys).value] == FirstValue(ValuesOf(all, ToLower(hs[i].name)))
    decreases |hs|
  {
    var p := hs[..|hs| - 1];
    if i < |p| {
      assert p[i] == hs[i];
      ScanValues(p, all, keys, i);
    }
  }

  /** Allow-list bound: every key of a successful extraction is allow-listed. */
  lemma ExtractKeysAllowed(headers: seq<Header>, keys: seq<string>, mediaType: Option<string>)
    requires Extraction(headers, keys, mediaType).Success?
    ensures forall k :: k in Extraction(headers, keys, mediaType).value ==> k in keys
  {
    var s := Scan(headers, headers, keys);
    ScanKeys(headers, headers, keys);
    forall k | k in s.value
      ensures k in keys
    {
      ProducedMembers(headers, keys, k);
    }
  }

  /** Every key of a successful extraction comes from some header's rule, or
      is the synthesized `content-type` entry. */
  lemma ExtractKeysOrigin(headers: seq<Header>, keys: seq<string>, mediaType: Option<string>, k: string)
    requires Extraction(headers, keys, mediaType).Success?
    requires k in Extraction(headers, keys, mediaType).value
    ensures (k == ContentTypeKey && ContentTypeKey in keys)
            || exists i :: 0 <= i < |headers| && OutKey(headers[i], keys) == Some(k)
  {
    ScanKeys(headers, headers, keys);
    ProducedMembers(headers, keys, k);
  }

  /** Completeness: every header a rule matches is reported, with the first
      value `GetValues` gives for its name. */
  lemma ExtractComplete(headers: seq<Header>, keys: seq<string>, mediaType: Option<string>, i: nat)
    requires Extraction(headers, keys, mediaType).Success?
    requires i < |headers| && OutKey(headers[i], keys).Some?
    ensures OutKey(headers[i], keys).value in Extraction(headers, keys, mediaType).value
    ensures Extraction(headers, keys, mediaType).value[OutKey(headers[i], keys).value]
            == FirstValue(ValuesOf(headers, ToLower(headers[i].name)))
  {
    ScanValues(headers, headers, keys, i);
  }

  /** A successful extraction stores, for every matched header, that header's
      own first value: an earlier header with the same lower-cased name would
      yield the same key and make the extraction throw. */
  lemma ExtractOwnValue(headers: seq<Header>, keys: seq<string>, mediaType: Option<string>, i: nat)
    requires Extraction(headers, keys, mediaType).Success?
    requires i < |headers| && OutKey(headers[i], keys).Some?
    ensures OutKey(headers[i], keys).value in Extraction(headers, keys, mediaType).value
    ensures Extraction(headers, keys, mediaType).value[OutKey(headers[i], keys).value] == FirstValue(headers[i].values)
  {
    ExtractComplete(headers, keys, mediaType, i);
    ExtractFailsIffDuplicate(headers, keys, mediaType);
    assert FirstNamed(headers, ToLower(headers[i].name), i);
  }

  /** Duplicate keys: the extraction throws exactly when two headers compete
      for one key, or a header already produced `content-type` before the
      synthesized entry is added; it never overwrites. */
  lemma ExtractFailsIffDuplicate(headers: seq<Header>, keys: seq<string>, mediaType: Option<string>)
    ensures Extraction(headers, keys, mediaType).Failure? <==>
              !NoCollision(headers, keys)
              || (ContentTypeKey in keys && exists i :: 0 <= i < |headers| && OutKey(headers[i], keys) == Some(ContentTypeKey))
    ensures Extraction(headers, keys, mediaType).Failure? ==> Extraction(headers, keys, mediaType).error.DuplicateKey?
  {
    ScanSucceedsIffNoCollision(headers, headers, keys);
    ProducedMembers(headers, keys, ContentTypeKey);
    ScanErrorIsDuplicate(headers, headers, keys);
    if Scan(headers, headers, keys).Success? {
      ScanKeys(headers, headers, keys);
    }
  }

  lemma {:induction false} ScanErrorIsDuplicate(hs: seq<Header>, all: seq<Header>, keys: seq<string>)
    ensures Scan(hs, all, keys).Failure? ==> Scan(hs, all, keys).error.DuplicateKey?
    decreases |hs|
  {
    if hs != [] {
      ScanErrorIsDuplicate(hs[..|hs| - 1], all, keys);
    }
  }

  /** Two header lists that differ only in the case of their names. */
  ghost predicate SameUpToNameCase(a: seq<Header>, b: seq<Header>) {
    |a| == |b|
    && forall i :: 0 <= i < |a| ==> ToLower(a[i].name) == ToLower(b[i].name) && a[i].values == b[i].values
  }

  lemma {:induction false} ValuesOfIgnoresNameCase(a: seq<Header>, b: seq<Header>, key: string)
    requires SameUpToNameCase(a, b)
    ensures ValuesOf(a, key) == ValuesOf(b, key)
    decreases |a|
  {
    if a != [] {
      assert SameUpToNameCase(a[1..], b[1..]) by {
        forall i | 0 <= i < |a[1..]|
          ensures ToLower(a[1..][i].name) == ToLower(b[1..][i].name) && a[1..][i].values == b[1..][i].values
        {
          assert a[1..][i] == a[i + 1] && b[1..][i] == b[i + 1];
        }
      }
      ValuesOfIgnoresNameCase(a[1..], b[1..], key);
    }
  }

  lemma {:induction false} ScanIgnoresNameCase(a: seq<Header>, b: seq<Header>, allA: seq<Header>, allB: seq<Header>, keys: seq<string>)
    requires SameUpToNameCase(a, b) && SameUpToNameCase(allA, allB)
    ensures Scan(a, allA, keys) == Scan(b, allB, keys)
    decreases |a|
  {
    if a != [] {
      var n := |a| - 1;
      assert SameUpToNameCase(a[..n], b[..n]) by {
        forall i | 0 <= i < n
          ensures ToLower(a[..n][i].name) == ToLower(b[..n][i].name) && a[..n][i].values == b[..n][i].values
        {
          assert a[..n][i] == a[i] && b[..n][i] == b[i];
        }
      }
      ScanIgnoresNameCase(a[..n], b[..n], allA, allB, keys);
      ValuesOfIgnoresNameCase(allA, allB, ToLower(a[n].name));
    }
  }

  /** Lower-casing: the extraction is insensitive to the case of header names. */
  lemma ExtractIgnoresNameCase(a: seq<Header>, b: seq<Header>, keys: seq<string>, mediaType: Option<string>)
    requires SameUpToNameCase(a, b)
    ensures Extraction(a, keys, mediaType) == Extraction(b, keys, mediaType)
  {
    ScanIgnoresNameCase(a, b, a, b, keys);
  }

  /** A vendor header is found under its short key and unrelated headers are
      dropped. */
  lemma RequestIdExample()
    ensures Extraction([Header("X-DG-Request-Id", ["abc"]), Header("unrelated", ["xyz"])], ["request-id"], None)
            == Success(map["request-id" := "abc"])
  {
    var hs := [Header("X-DG-Request-Id", ["abc"]), Header("unrelated", ["xyz"])];
    var keys := ["request-id"];
    assert ToLower(hs[0].name) == CurrentPrefix + "request-id";
    CurrentPrefixFirst("request-id", keys);
    assert OutKey(hs[0], keys) == Some("request-id");
    assert ValuesOf(hs, ToLower(hs[0].name)) == ["abc"];
    assert ToLower(hs[1].name) == "unrelated";
    assert "unrelated"[0] != CurrentPrefix[0] && "unrelated"[0] != LegacyPrefix[0];
    assert OutKey(hs[1], keys) == None;
    ScanExtend(hs, 0, keys, map[]);
    ScanExtend(hs, 1, keys, map["request-id" := "abc"]);
    assert hs[..2] == hs;
  }

  /** Under a Turkish or Azerbaijani culture the source lower-cases
      `X-DG-Request-Id` to `x-dg-request-ıd` (dotless `ı`).  `GetValues` is
      then called with a name no header has and throws, so the whole call
      fails; and even past that, no rule matches the name.  Invariant
      lower-casing reports the header as `request-id`. */
  lemma TurkicCultureFailsLookup()
    ensures GetValues([Header("X-DG-Request-Id", ["abc"])], ToLowerTurkic("X-DG-Request-Id"))
            == Failure(MissingHeader(ToLowerTurkic("X-DG-Request-Id")))
    ensures Rule(ToLowerTurkic("X-DG-Request-Id"), ["request-id"]) == None
    ensures Extraction([Header("X-DG-Request-Id", ["abc"])], ["request-id"], None) == Success(map["request-id" := "abc"])
  {
    var keys := ["request-id"];
    var hs := [Header("X-DG-Request-Id", ["abc"])];
    var t := ToLowerTurkic("X-DG-Request-Id");
    assert t[13] == '\U{131}' != ToLower(hs[0].name)[13];
    assert ValuesOf(hs, ToLower(hs[0].name)) == ["abc"];
    ScanExtend(hs, 0, keys, map[]);
    assert hs[..1] == hs;
    assert t[..5] == CurrentPrefix;
    assert t[5..][8] == '\U{131}' != "request-id"[8];
    assert t[5..] != "request-id";
    assert t[0] != LegacyPrefix[0];
    assert |t| != |"request-id"|;
    assert ToLower("X-DG-Request-Id") == CurrentPrefix + "request-id";
    CurrentPrefixFirst("request-id", keys);
  }

  /** The same key under both prefixes makes `Add` throw. */
  lemma BothPrefixesCollide()
    ensures Extraction([Header("x-dg-request-id", ["a"]), Header("dg-request-id", ["b"])], ["request-id"], None)
            == Failure(DuplicateKey("request-id"))
  {
    var hs := [Header("x-dg-request-id", ["a"]), Header("dg-request-id", ["b"])];
    var keys := ["request-id"];
    assert ToLower(hs[0].name) == CurrentPrefix + "request-id";
    assert ToLower(hs[1].name) == LegacyPrefix + "request-id";
    CurrentPrefixFirst("request-id", keys);
    LegacyPrefixSecond("request-id", keys);
    assert ValuesOf(hs, ToLower(hs[0].name)) == ["a"];
    ScanExtend(hs, 0, keys, map[]);
    ScanExtend(hs, 1, keys, map["request-id" := "a"]);
    assert hs[..2] == hs;
  }
}
