/** The schema model the generator works on: the entity types, complex
    types, entity sets and navigation properties of an OData v2 metadata
    document, already read out of the XML. */
module Schema {
  import opened Values

  /** A declared property. `schema` and `typeName` are the declared type
      split at its last dot (`Edm.String` gives `Edm` and `String`). */
  datatype Property = Property(
    name: string,
    schema: string,
    typeName: string,
    precision: string,
    scale: string)

  /** An entity type, or a complex type (which has no keys); the generator
      treats both alike when it fills a record. */
  datatype StructType = StructType(name: string, properties: seq<Property>, keys: seq<string>)

  /** One end of a navigation: its role, the entity set at that end, the
      key properties the referential constraint names, and the multiplicity. */
  datatype NavEndpoint = NavEndpoint(role: string, entitySet: string, propRef: seq<string>, multiplicity: string)

  datatype NavigationProperty = NavigationProperty(name: string, from: NavEndpoint, to: NavEndpoint)

  /** An entity set. `schema` is `None` when the entity-type attribute has no
      dot. `keysType` maps each key to its declared type name (`Edm.Guid`). */
  datatype EntitySet = EntitySet(
    name: string,
    schema: Option<string>,
    typeName: string,
    keys: seq<string>,
    keysType: map<string, string>,
    navprops: seq<NavigationProperty>)

  /** The declared key types the key predicate writes specially. */
  datatype KeyType = EdmString | EdmDateTime | EdmGuid | OtherKeyType

  /** The comparisons the key predicate makes on a key's declared type. */
  function KeyTypeOf(declared: string): (k: KeyType)
    ensures k == EdmString <==> declared == "Edm.String"
    ensures k == EdmDateTime <==> declared == "Edm.DateTime"
    ensures k == EdmGuid <==> declared == "Edm.Guid"
  {
    if declared == "Edm.String" then EdmString
    else if declared == "Edm.DateTime" then EdmDateTime
    else if declared == "Edm.Guid" then EdmGuid
    else OtherKeyType
  }

  /** The whole model: entity sets in document order, entity types and
      complex types by their bare name. */
  datatype Model = Model(
    entitySets: seq<EntitySet>,
    entityTypes: map<string, StructType>,
    complexTypes: map<string, StructType>)

  /** The parsed sets are a JavaScript object keyed by entity-set name, and
      each set's navigation properties an object keyed by navigation name,
      so no two sets, and no two navigations of one set, share a name. */
  ghost predicate WellFormed(m: Model) {
    && DistinctSetNames(m.entitySets)
    && forall es :: es in m.entitySets ==> DistinctNavNames(es.navprops)
  }

  ghost predicate DistinctNavNames(navs: seq<NavigationProperty>) {
    forall i, j :: 0 <= i < j < |navs| ==> navs[i].name != navs[j].name
  }

  ghost predicate DistinctSetNames(sets: seq<EntitySet>) {
    forall i, j :: 0 <= i < j < |sets| ==> sets[i].name != sets[j].name
  }

  /** `s.lastIndexOf(c)`. */
  function LastIndexOf(s: string, c: char): (i: int)
    ensures -1 <= i < |s|
    ensures i >= 0 ==> s[i] == c && forall k :: i < k < |s| ==> s[k] != c
    ensures i == -1 ==> forall k :: 0 <= k < |s| ==> s[k] != c
  {
    if s == [] then -1
    else if s[|s| - 1] == c then |s| - 1
    else LastIndexOf(s[..|s| - 1], c)
  }

  /** The split of a property's declared type: `type.substring(0,
      type.lastIndexOf("."))` and `type.substring(type.lastIndexOf(".") + 1)`.
      Without a dot, `substring(0, -1)` is empty and the name is the whole
      string. */
  function SplitPropertyType(t: string): (r: (string, string))
    ensures '.' !in r.1
    ensures '.' in t ==> r.0 + "." + r.1 == t
    ensures '.' !in t ==> r.0 == "" && r.1 == t
  {
    var i := LastIndexOf(t, '.');
    if i < 0 then ("", t)
    else
      assert t == t[..i] + "." + t[i + 1..];
      (t[..i], t[i + 1..])
  }

  /** The split of an entity set's EntityType attribute by the regular
      expression `((.*)\.)?(.*)`: the greedy group stops at the last dot, and
      without a dot the schema group does not participate (`undefined`). */
  function SplitEntityType(t: string): (r: (Option<string>, string))
    ensures '.' !in r.1
    ensures '.' in t <==> r.0.Some?
    ensures r.0.Some? ==> r.0.value + "." + r.1 == t
    ensures r.0.None? ==> r.1 == t
  {
    var (schema, name) := SplitPropertyType(t);
    if '.' in t then (Some(schema), name) else (None, name)
  }

  /** `schema + "." + type` as JavaScript builds it: a missing schema
      concatenates as "undefined". */
  function QualifiedType(schema: Option<string>, typeName: string): string {
    (if schema.Some? then schema.value else "undefined") + "." + typeName
  }

  /** Splitting a dotted entity-type name and joining it again gives it back,
      and a name without a dot comes back behind "undefined.". */
  lemma QualifiedTypeRoundTrip(t: string)
    ensures var (schema, name) := SplitEntityType(t);
            QualifiedType(schema, name) == if '.' in t then t else "undefined." + t
  {
  }

  /** The PropertyRef names under one role: a `Principal` or `Dependent`
      element with its `Role` attribute. */
  datatype RoleRefs = RoleRefs(role: string, propertyRefs: seq<string>)

  /** The property references of one navigation end. The association's own
      ReferentialConstraint is searched first (first child with that role);
      only when it has none are all Principal (for the from end) or all
      Dependent (for the to end) elements of the document searched, first
      match winning; with no match at all the list is empty. */
  function ResolvePropRef(role: string, constraint: seq<RoleRefs>, document: seq<RoleRefs>): (r: seq<string>)
    ensures (exists k :: 0 <= k < |constraint| && constraint[k].role == role) ==>
              exists k :: 0 <= k < |constraint| && constraint[k].role == role && r == constraint[k].propertyRefs
                && forall j :: 0 <= j < k ==> constraint[j].role != role
    ensures && (forall k :: 0 <= k < |constraint| ==> constraint[k].role != role)
            && (exists k :: 0 <= k < |document| && document[k].role == role)
            ==> (exists k :: 0 <= k < |document| && document[k].role == role && r == document[k].propertyRefs
                   && forall j :: 0 <= j < k ==> document[j].role != role)
    ensures && (forall k :: 0 <= k < |constraint| ==> constraint[k].role != role)
            && (forall k :: 0 <= k < |document| ==> document[k].role != role)
            ==> r == []
  {
    var c := FirstWithRole(constraint, role);
    if c < |constraint| then constraint[c].propertyRefs
    else
      var d := FirstWithRole(document, role);
      if d < |document| then document[d].propertyRefs else []
  }

  /** Index of the first element with the given role, or the length when none has it. */
  function FirstWithRole(xs: seq<RoleRefs>, role: string): (k: nat)
    ensures k <= |xs|
    ensures k < |xs| ==> xs[k].role == role
    ensures forall j :: 0 <= j < k ==> xs[j].role != role
  {
    if xs == [] then 0
    else if xs[0].role == role then 0
    else 1 + FirstWithRole(xs[1..], role)
  }
}
