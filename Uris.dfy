/** OData v2 resource identifiers: the service root, the key predicate of an
    entity, and the `__metadata` and `__deferred` URIs built from them. */
module Uris {
  import opened Values
  import Schema

  // ------------------------------------------------------------ service root

  predicate EndsWithSlash(s: string) {
    |s| > 0 && s[|s| - 1] == '/'
  }

  /** The constructor's normalisation: a root not ending in `/` gets one
      (the empty root becomes `/`). */
  function WithTrailingSlash(s: string): (r: string)
    ensures EndsWithSlash(r)
    ensures EndsWithSlash(s) ==> r == s
    ensures !EndsWithSlash(s) ==> r == s + "/"
  {
    if EndsWithSlash(s) then s else s + "/"
  }

  /** The part of `s` before its first `?` or `#` (the first group of
      `/([^?#]*)([?#].*)?/`). */
  function StripQueryAndFragment(s: string): (r: string)
    ensures r <= s
    ensures '?' !in r && '#' !in r
    ensures |r| < |s| ==> s[|r|] == '?' || s[|r|] == '#'
  {
    if s == [] || s[0] == '?' || s[0] == '#' then []
    else [s[0]] + StripQueryAndFragment(s[1..])
  }

  /** The root the source's `_getRootUri` returns: the stored root cut at its
      first `?` or `#`. */
  function RootUriAsWritten(stored: string): string {
    StripQueryAndFragment(stored)
  }

  /** The root the URIs are built on: the stored root cut at its first `?`
      or `#`, and ending in `/` again. */
  function RootUri(stored: string): (r: string)
    ensures EndsWithSlash(r)
    ensures '?' !in r && '#' !in r
    ensures StripQueryAndFragment(stored) <= r
  {
    WithTrailingSlash(StripQueryAndFragment(stored))
  }

  /** For a root without query or fragment the two agree: the correction
      changes nothing there. */
  lemma RootUriAgrees(option: string)
    requires '?' !in option && '#' !in option
    ensures RootUri(WithTrailingSlash(option)) == RootUriAsWritten(WithTrailingSlash(option))
    ensures RootUri(WithTrailingSlash(option)) == WithTrailingSlash(option)
  {
    var stored := WithTrailingSlash(option);
    NoCutWithout(stored);
  }

  lemma {:induction false} NoCutWithout(s: string)
    requires '?' !in s && '#' !in s
    ensures StripQueryAndFragment(s) == s
    decreases |s|
  {
    if s != [] {
      NoCutWithout(s[1..]);
    }
  }

  /** A configured root with a query part loses the separating `/`: the
      constructor appends it after the query, and cutting the query drops it. */
  lemma RootWithQuery(base: string, query: string)
    requires '?' !in base && '#' !in base && !EndsWithSlash(base)
    requires |query| > 0 && query[0] == '?'
    ensures RootUriAsWritten(WithTrailingSlash(base + query)) == base
    ensures RootUri(WithTrailingSlash(base + query)) == base + "/"
  {
    var stored := WithTrailingSlash(base + query);
    assert stored == base + (query + "/") || stored == base + query;
    if stored == base + query {
      CutAtQuery(base, query);
    } else {
      CutAtQuery(base, query + "/");
    }
  }

  /** The service root `http://host/service?sap-client=100` yields
      `http://host/serviceProducts(1)` for entity 1 of Products as written,
      and `http://host/service/Products(1)` once the slash is restored. */
  lemma RootUriAsWrittenLosesSlash()
    ensures var stored := WithTrailingSlash("http://host/service" + "?sap-client=100");
            && EntityUri(RootUriAsWritten(stored), "Products", "1") == "http://host/service" + "Products(1)"
            && EntityUri(RootUri(stored), "Products", "1") == "http://host/service" + "/" + "Products(1)"
  {
    var base := "http://host/service";
    assert "Products" + "(" + "1" + ")" == "Products(1)";
    assert base[|base| - 1] == 'e';
    assert '?' !in base && '#' !in base;
    RootWithQuery(base, "?sap-client=100");
  }

  lemma {:induction false} CutAtQuery(base: string, rest: string)
    requires '?' !in base && '#' !in base
    requires |rest| > 0 && rest[0] == '?'
    ensures StripQueryAndFragment(base + rest) == base
    decreases |base|
  {
    if base != [] {
      assert (base + rest)[1..] == base[1..] + rest;
      CutAtQuery(base[1..], rest);
    } else {
      assert base + rest == rest;
    }
  }

  // ----------------------------------------------------------- key predicate

  /** One key value as the key predicate writes it: Edm.String quoted and
      URI-encoded, Edm.DateTime as a `datetime'…'` literal, URI-encoded
      (`undefined` for a falsy value), Edm.Guid as `guid'…'`, anything else
      as its plain text. */
  function FormatKey(key: string, keysType: map<string, string>, entry: Record, host: Host): string {
    var v := Get(entry, key);
    match Schema.KeyTypeOf(if key in keysType then keysType[key] else "")
    case EdmString => host.encodeUriComponent("'" + Text(v) + "'")
    case EdmDateTime => host.encodeUriComponent(if Truthy(v) then host.dateTimeLiteral(Text(v)) else "undefined")
    case EdmGuid => "guid'" + Text(v) + "'"
    case OtherKeyType => Text(v)
  }

  /** One `name=value` segment of a composite key. */
  function Segment(key: string, keysType: map<string, string>, entry: Record, host: Host): string {
    key + "=" + FormatKey(key, keysType, entry, host)
  }

  /** `parts` joined with `sep` between neighbours. */
  function Join(parts: seq<string>, sep: string): (r: string)
    ensures |parts| > 0 && parts[|parts| - 1] != "" ==> r != ""
  {
    if parts == [] then ""
    else if |parts| == 1 then parts[0]
    else Join(parts[..|parts| - 1], sep) + sep + parts[|parts| - 1]
  }

  /** The `name=value` segments of a composite key, in declared key order. */
  function Segments(keys: seq<string>, keysType: map<string, string>, entry: Record, host: Host): (r: seq<string>)
    ensures |r| == |keys|
    ensures forall k :: 0 <= k < |keys| ==> r[k] == Segment(keys[k], keysType, entry, host)
    decreases |keys|
  {
    if keys == [] then []
    else Segments(keys[..|keys| - 1], keysType, entry, host) + [Segment(keys[|keys| - 1], keysType, entry, host)]
  }

  /** The OData v2 key predicate: the bare value for a single key, the
      `name=value` segments joined by commas for several. */
  function KeyPredicate(keys: seq<string>, keysType: map<string, string>, entry: Record, host: Host): string {
    if |keys| == 1 then FormatKey(keys[0], keysType, entry, host)
    else Join(Segments(keys, keysType, entry, host), ",")
  }

  /** The source's `_createKeysString`: one pass over the keys in declared
      order, a comma before each piece once something has been written. */
  method CreateKeysString(keys: seq<string>, keysType: map<string, string>, entry: Record, host: Host)
    returns (sKeys: string)
    ensures sKeys == KeyPredicate(keys, keysType, entry, host)
  {
    sKeys := "";
    var i := 0;
    while i < |keys|
      invariant 0 <= i <= |keys|
      invariant sKeys == Join(Pieces(keys, keysType, entry, host)[..i], ",")
    {
      PieceAt(keys, keysType, entry, host, i);
      JoinStep(Pieces(keys, keysType, entry, host), i, ",");
      if sKeys != "" {
        sKeys := sKeys + ",";
      }
      var keyValue := FormatKey(keys[i], keysType, entry, host);
      if |keys| == 1 {
        sKeys := sKeys + keyValue;
      } else {
        sKeys := sKeys + (keys[i] + "=" + keyValue);
      }
      i := i + 1;
    }
    PiecesJoined(keys, keysType, entry, host);
  }

  /** The pieces the loop writes: the bare value of a single key, else the
      `name=value` segments. */
  function Pieces(keys: seq<string>, keysType: map<string, string>, entry: Record, host: Host): seq<string> {
    if |keys| == 1 then [FormatKey(keys[0], keysType, entry, host)] else Segments(keys, keysType, entry, host)
  }

  lemma PieceAt(keys: seq<string>, keysType: map<string, string>, entry: Record, host: Host, i: nat)
    requires i < |keys|
    ensures var pieces := Pieces(keys, keysType, entry, host);
            && |pieces| == |keys|
            && pieces[i] == (if |keys| == 1 then FormatKey(keys[i], keysType, entry, host) else keys[i] + "=" + FormatKey(keys[i], keysType, entry, host))
            && (i > 0 ==> pieces[i - 1] != "")
  {
  }

  lemma PiecesJoined(keys: seq<string>, keysType: map<string, string>, entry: Record, host: Host)
    ensures Join(Pieces(keys, keysType, entry, host)[..|keys|], ",") == KeyPredicate(keys, keysType, entry, host)
  {
    assert Pieces(keys, keysType, entry, host)[..|keys|] == Pieces(keys, keysType, entry, host);
  }

  /** Joining one more part: a separator only when something came before. */
  lemma JoinStep(parts: seq<string>, i: nat, sep: string)
    requires i < |parts|
    requires i > 0 ==> parts[i - 1] != ""
    ensures i > 0 ==> Join(parts[..i], sep) != ""
    ensures Join(parts[..i + 1], sep) == (if i == 0 then "" else Join(parts[..i], sep) + sep) + parts[i]
  {
    assert parts[..i + 1][..i] == parts[..i];
    assert i > 0 ==> parts[..i][i - 1] == parts[i - 1];
  }

  /** A single key is written bare, with no `name=`, and by its declared
      type name: Edm.String quoted and encoded, Edm.DateTime as an encoded
      `datetime'...'` literal, Edm.Guid as `guid'...'`, any other type (or
      an undeclared key) as its plain text. */
  lemma SingleKeyPredicate(key: string, keysType: map<string, string>, entry: Record, host: Host)
    ensures var p := KeyPredicate([key], keysType, entry, host);
            var v := Get(entry, key);
            var declared := if key in keysType then keysType[key] else "";
            && (declared == "Edm.String" ==> p == host.encodeUriComponent("'" + Text(v) + "'"))
            && (declared == "Edm.DateTime" && Truthy(v) ==> p == host.encodeUriComponent(host.dateTimeLiteral(Text(v))))
            && (declared == "Edm.DateTime" && !Truthy(v) ==> p == host.encodeUriComponent("undefined"))
            && (declared == "Edm.Guid" ==> p == "guid'" + Text(v) + "'")
            && (declared != "Edm.String" && declared != "Edm.DateTime" && declared != "Edm.Guid" ==> p == Text(v))
  {
  }

  /** Splitting at the last `sep` character, repeatedly. */
  function SplitAt(s: string, sep: char): (r: seq<string>)
    ensures |r| > 0
    decreases |s|
  {
    var i := Schema.LastIndexOf(s, sep);
    if i < 0 then [s] else SplitAt(s[..i], sep) + [s[i + 1..]]
  }

  /** Segments without commas are recovered from the composite predicate. */
  lemma {:induction false} JoinSplit(parts: seq<string>)
    requires |parts| > 0
    requires forall k :: 0 <= k < |parts| ==> ',' !in parts[k]
    ensures SplitAt(Join(parts, ","), ',') == parts
    decreases |parts|
  {
    if |parts| > 1 {
      var init := parts[..|parts| - 1];
      var last := parts[|parts| - 1];
      var j := Join(init, ",");
      var s := j + "," + last;
      assert Join(parts, ",") == s;
      assert s[|j|] == ',';
      assert forall k :: |j| < k < |s| ==> s[k] == last[k - |j| - 1];
      assert Schema.LastIndexOf(s, ',') == |j|;
      assert s[..|j|] == j && s[|j| + 1..] == last;
      JoinSplit(init);
    } else {
      assert Schema.LastIndexOf(parts[0], ',') == -1;
    }
  }

  /** A composite key predicate reads back as its `name=value` segments in
      declared key order, when no key name or value holds a comma. */
  lemma CompositeKeyRoundTrip(keys: seq<string>, keysType: map<string, string>, entry: Record, host: Host)
    requires |keys| >= 2
    requires forall k :: 0 <= k < |keys| ==> ',' !in keys[k] && ',' !in FormatKey(keys[k], keysType, entry, host)
    ensures SplitAt(KeyPredicate(keys, keysType, entry, host), ',') == Segments(keys, keysType, entry, host)
  {
    var segs := Segments(keys, keysType, entry, host);
    forall k | 0 <= k < |segs| ensures ',' !in segs[k] {
      assert segs[k] == Segment(keys[k], keysType, entry, host);
    }
    JoinSplit(segs);
  }

  // ------------------------------------------------------------------- URIs

  /** `root + set + "(" + keys + ")"`. */
  function EntityUri(root: string, setName: string, keyPredicate: string): string {
    root + (setName + "(" + keyPredicate + ")")
  }

  /** The deferred URI of navigation `nav`: the entity's URI, a `/`, and the name. */
  function DeferredUri(entityUri: string, nav: string): string {
    entityUri + "/" + nav
  }

  // --------------------------------------------------- decorating a record

  /** `{uri, type}` as attached under `__metadata`. */
  function MetadataObject(uri: string, qualifiedType: string): Value {
    Obj(map["uri" := Str(uri), "type" := Str(qualifiedType)])
  }

  /** `{__deferred: {uri}}` as attached under a navigation property's name. */
  function DeferredObject(uri: string): Value {
    Obj(map["__deferred" := Obj(map["uri" := Str(uri)])])
  }

  /** The record with the deferred stub of `nav` attached; the stub's URI
      uses the key predicate of the record as it is. */
  function WithStub(e: Record, root: string, es: Schema.EntitySet, nav: Schema.NavigationProperty, host: Host): Record {
    var uri := EntityUri(root, es.name, KeyPredicate(es.keys, es.keysType, e, host));
    e[nav.name := DeferredObject(DeferredUri(uri, nav.name))]
  }

  /** The record after the deferred stubs of `navs` have been attached one
      after the other. */
  function WithNavigations(e: Record, root: string, es: Schema.EntitySet, navs: seq<Schema.NavigationProperty>, host: Host): Record
    decreases |navs|
  {
    if navs == [] then e
    else WithStub(WithNavigations(e, root, es, navs[..|navs| - 1], host), root, es, navs[|navs| - 1], host)
  }

  /** The record with `__metadata` holding its entity URI and qualified type. */
  function WithMetadata(entry: Record, root: string, es: Schema.EntitySet, host: Host): Record {
    var uri := EntityUri(root, es.name, KeyPredicate(es.keys, es.keysType, entry, host));
    entry["__metadata" := MetadataObject(uri, Schema.QualifiedType(es.schema, es.typeName))]
  }

  /** The record with `__metadata` and its deferred navigation stubs. */
  function Decorated(entry: Record, root: string, es: Schema.EntitySet, host: Host): Record {
    WithNavigations(WithMetadata(entry, root, es, host), root, es, es.navprops, host)
  }

  /** The source's per-record step: attach `__metadata`, then one deferred
      stub per navigation property, computing the key predicate afresh each
      time. */
  method DecorateEntry(entry: Record, root: string, es: Schema.EntitySet, host: Host) returns (e: Record)
    ensures e == Decorated(entry, root, es, host)
  {
    e := AttachMetadataObject(entry, root, es, host);
    e := AttachStubs(e, root, es, host);
  }

  /** The `__metadata` step of the per-record decoration. */
  method AttachMetadataObject(entry: Record, root: string, es: Schema.EntitySet, host: Host) returns (e: Record)
    ensures e == WithMetadata(entry, root, es, host)
  {
    var keys := CreateKeysString(es.keys, es.keysType, entry, host);
    e := entry["__metadata" := MetadataObject(EntityUri(root, es.name, keys), Schema.QualifiedType(es.schema, es.typeName))];
  }

  /** The loop over the navigation properties of the per-record decoration. */
  method AttachStubs(start: Record, root: string, es: Schema.EntitySet, host: Host) returns (e: Record)
    ensures e == WithNavigations(start, root, es, es.navprops, host)
  {
    e := start;
    var n := 0;
    while n < |es.navprops|
      invariant 0 <= n <= |es.navprops|
      invariant e == WithNavigations(start, root, es, es.navprops[..n], host)
    {
      WithNavigationsSnoc(start, root, es, es.navprops, n, host);
      e := AttachStub(e, root, es, es.navprops[n], host);
      n := n + 1;
    }
    assert es.navprops[..n] == es.navprops;
  }

  /** One more stub, on the record with the earlier ones. */
  lemma WithNavigationsSnoc(start: Record, root: string, es: Schema.EntitySet, navs: seq<Schema.NavigationProperty>, n: nat, host: Host)
    requires n < |navs|
    ensures WithNavigations(start, root, es, navs[..n + 1], host) == WithStub(WithNavigations(start, root, es, navs[..n], host), root, es, navs[n], host)
  {
    assert navs[..n + 1][..n] == navs[..n];
  }

  /** One navigation property's `{__deferred: {uri}}` stub. */
  method AttachStub(e: Record, root: string, es: Schema.EntitySet, nav: Schema.NavigationProperty, host: Host) returns (d: Record)
    ensures d == WithStub(e, root, es, nav, host)
  {
    var navKeys := CreateKeysString(es.keys, es.keysType, e, host);
    d := e[nav.name := DeferredObject(DeferredUri(EntityUri(root, es.name, navKeys), nav.name))];
  }

  /** The names of the navigation properties. */
  function NavNames(navs: seq<Schema.NavigationProperty>): (r: set<string>)
    ensures forall n :: 0 <= n < |navs| ==> navs[n].name in r
  {
    if navs == [] then {} else NavNames(navs[..|navs| - 1]) + {navs[|navs| - 1].name}
  }

  /** The key predicate reads only the key fields. */
  lemma KeyPredicateReadsKeys(keys: seq<string>, keysType: map<string, string>, e1: Record, e2: Record, host: Host)
    requires forall k :: 0 <= k < |keys| ==> Get(e1, keys[k]) == Get(e2, keys[k])
    ensures KeyPredicate(keys, keysType, e1, host) == KeyPredicate(keys, keysType, e2, host)
  {
    assert Segments(keys, keysType, e1, host) == Segments(keys, keysType, e2, host);
  }

  /** Attaching stubs leaves every field that is not a navigation name alone. */
  lemma {:induction false} WithNavigationsKeepsFields(e: Record, root: string, es: Schema.EntitySet, navs: seq<Schema.NavigationProperty>, host: Host)
    ensures var d := WithNavigations(e, root, es, navs, host);
            forall f :: f in e && f !in NavNames(navs) ==> f in d && d[f] == e[f]
    decreases |navs|
  {
    if navs != [] {
      var init := navs[..|navs| - 1];
      WithNavigationsKeepsFields(e, root, es, init, host);
    }
  }

  /** When no navigation is named like a key, attaching stubs leaves the key
      predicate as it was. */
  lemma WithNavigationsKeyPredicate(e: Record, root: string, es: Schema.EntitySet, navs: seq<Schema.NavigationProperty>, host: Host)
    requires forall k :: 0 <= k < |es.keys| ==> es.keys[k] !in NavNames(navs)
    ensures KeyPredicate(es.keys, es.keysType, WithNavigations(e, root, es, navs, host), host)
         == KeyPredicate(es.keys, es.keysType, e, host)
  {
    var d := WithNavigations(e, root, es, navs, host);
    WithNavigationsKeys(e, root, es, navs, host);
    WithNavigationsKeepsFields(e, root, es, navs, host);
    forall k | 0 <= k < |es.keys| ensures Get(d, es.keys[k]) == Get(e, es.keys[k]) {
      assert es.keys[k] !in NavNames(navs);
    }
    KeyPredicateReadsKeys(es.keys, es.keysType, d, e, host);
  }

  /** With distinct navigation names and none named like a key, every stub
      hangs off the entity URI of the record before any stub was attached. */
  lemma WithNavigationsStubs(e: Record, root: string, es: Schema.EntitySet, navs: seq<Schema.NavigationProperty>, host: Host)
    requires forall k :: 0 <= k < |es.keys| ==> es.keys[k] !in NavNames(navs)
    requires forall i, j :: 0 <= i < j < |navs| ==> navs[i].name != navs[j].name
    ensures var d := WithNavigations(e, root, es, navs, host);
            var uri := EntityUri(root, es.name, KeyPredicate(es.keys, es.keysType, e, host));
            forall n :: 0 <= n < |navs| ==> navs[n].name in d && d[navs[n].name] == DeferredObject(DeferredUri(uri, navs[n].name))
  {
    forall n | 0 <= n < |navs| {
      StubAt(e, root, es, navs, host, n);
    }
  }

  /** The stub of the `n`-th navigation property, by induction on the
      properties attached after it. */
  lemma {:induction false} StubAt(e: Record, root: string, es: Schema.EntitySet, navs: seq<Schema.NavigationProperty>, host: Host, n: nat)
    requires n < |navs|
    requires forall k :: 0 <= k < |es.keys| ==> es.keys[k] !in NavNames(navs)
    requires forall i, j :: 0 <= i < j < |navs| ==> navs[i].name != navs[j].name
    ensures var d := WithNavigations(e, root, es, navs, host);
            navs[n].name in d && d[navs[n].name] == DeferredObject(DeferredUri(EntityUri(root, es.name, KeyPredicate(es.keys, es.keysType, e, host)), navs[n].name))
    decreases |navs|
  {
    var init := navs[..|navs| - 1];
    if n < |init| {
      assert init[n] == navs[n];
      StubAt(e, root, es, init, host, n);
    } else {
      WithNavigationsKeyPredicate(e, root, es, init, host);
    }
  }

  /** Attaching stubs adds exactly the navigation names as fields. */
  lemma {:induction false} WithNavigationsKeys(e: Record, root: string, es: Schema.EntitySet, navs: seq<Schema.NavigationProperty>, host: Host)
    ensures WithNavigations(e, root, es, navs, host).Keys == e.Keys + NavNames(navs)
    decreases |navs|
  {
    if navs != [] {
      var init := navs[..|navs| - 1];
      WithNavigationsKeys(e, root, es, init, host);
    }
  }

  /** A decorated record has the fields it had, `__metadata`, and one field
      per navigation property. */
  lemma DecoratedKeys(entry: Record, root: string, es: Schema.EntitySet, host: Host)
    ensures Decorated(entry, root, es, host).Keys == entry.Keys + {"__metadata"} + NavNames(es.navprops)
  {
    WithNavigationsKeys(WithMetadata(entry, root, es, host), root, es, es.navprops, host);
  }

  /** `__metadata` leaves the key predicate as it was, provided no key is
      called `__metadata`. */
  lemma MetadataKeepsKeyPredicate(entry: Record, root: string, es: Schema.EntitySet, host: Host)
    requires forall k :: 0 <= k < |es.keys| ==> es.keys[k] != "__metadata"
    ensures KeyPredicate(es.keys, es.keysType, WithMetadata(entry, root, es, host), host) == KeyPredicate(es.keys, es.keysType, entry, host)
  {
    var m := WithMetadata(entry, root, es, host);
    forall k | 0 <= k < |es.keys| ensures Get(m, es.keys[k]) == Get(entry, es.keys[k]) {
      assert es.keys[k] != "__metadata";
    }
    KeyPredicateReadsKeys(es.keys, es.keysType, m, entry, host);
  }

  /** The deferred stubs of a decorated record hang off its entity URI. */
  lemma DecoratedStubs(entry: Record, root: string, es: Schema.EntitySet, host: Host)
    requires forall i, j :: 0 <= i < j < |es.navprops| ==> es.navprops[i].name != es.navprops[j].name
    requires forall k :: 0 <= k < |es.keys| ==> es.keys[k] != "__metadata" && es.keys[k] !in NavNames(es.navprops)
    ensures var d := Decorated(entry, root, es, host);
            var uri := EntityUri(root, es.name, KeyPredicate(es.keys, es.keysType, entry, host));
            forall n :: 0 <= n < |es.navprops| ==> es.navprops[n].name in d && d[es.navprops[n].name] == DeferredObject(DeferredUri(uri, es.navprops[n].name))
  {
    MetadataKeepsKeyPredicate(entry, root, es, host);
    WithNavigationsStubs(WithMetadata(entry, root, es, host), root, es, es.navprops, host);
  }

  /** A decorated record keeps `__metadata` and the fields that no
      navigation overwrites. */
  lemma DecoratedKeepsFields(entry: Record, root: string, es: Schema.EntitySet, host: Host)
    requires "__metadata" !in NavNames(es.navprops)
    ensures var d := Decorated(entry, root, es, host);
            && "__metadata" in d
            && d["__metadata"] == MetadataObject(EntityUri(root, es.name, KeyPredicate(es.keys, es.keysType, entry, host)), Schema.QualifiedType(es.schema, es.typeName))
            && forall f :: f in entry && f != "__metadata" && f !in NavNames(es.navprops) ==> f in d && d[f] == entry[f]
  {
    WithNavigationsKeepsFields(WithMetadata(entry, root, es, host), root, es, es.navprops, host);
  }

  /** Every decorated record carries `__metadata` with the entity URI and
      the namespace-qualified type, one deferred stub per navigation property
      whose URI is the entity URI followed by `/` and the navigation's name,
      and its other fields unchanged; provided navigation names are
      distinct and no key or navigation is called `__metadata`, and no
      navigation is named like a key. */
  lemma DecoratedShape(entry: Record, root: string, es: Schema.EntitySet, host: Host)
    requires forall i, j :: 0 <= i < j < |es.navprops| ==> es.navprops[i].name != es.navprops[j].name
    requires "__metadata" !in NavNames(es.navprops)
    requires forall k :: 0 <= k < |es.keys| ==> es.keys[k] != "__metadata" && es.keys[k] !in NavNames(es.navprops)
    ensures var d := Decorated(entry, root, es, host);
            var uri := EntityUri(root, es.name, KeyPredicate(es.keys, es.keysType, entry, host));
            && d.Keys == entry.Keys + {"__metadata"} + NavNames(es.navprops)
            && d["__metadata"] == MetadataObject(uri, Schema.QualifiedType(es.schema, es.typeName))
            && (forall n :: 0 <= n < |es.navprops| ==>
                  d[es.navprops[n].name] == DeferredObject(DeferredUri(uri, es.navprops[n].name)))
            && (forall f :: f in entry && f != "__metadata" && f !in NavNames(es.navprops) ==> d[f] == entry[f])
  {
    DecoratedKeys(entry, root, es, host);
    DecoratedStubs(entry, root, es, host);
    DecoratedKeepsFields(entry, root, es, host);
  }
}
