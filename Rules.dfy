/** The generation options and the predefined-value rules, with the pure
    decisions the generator takes on them: which rule applies, which
    variable a `$ref:` rule names, which dependent entry matches, which
    sets are skipped, and the bookkeeping of chosen values. */
module Rules {
  import opened Values
  import Schema

  /** A predefined rule for one property. An array of values to pick from; a
      string (a `$ref:<variable>` rule when it contains `$ref`); or a
      dependent rule `{reference, values}` whose `values` lists key/value
      pairs (an absent `values` is the empty list). */
  datatype Rule =
    | Choices(options: seq<Value>)
    | Text(config: string)
    | Dependent(reference: string, values: seq<Entry>)

  datatype Entry = Entry(key: Value, value: Value)

  /** A variable: an array to pick from, or a scalar used verbatim. */
  datatype Variable = ListVariable(options: seq<Value>) | ScalarVariable(value: Value)

  /** The constructor's options. `numberOfEntitiesToGenerate` is 0 when absent. */
  datatype Options = Options(
    numberOfEntitiesToGenerate: int,
    mockDataRootUri: string,
    skipMockGeneration: seq<string>,
    distinctValues: seq<string>,
    predefined: map<string, map<string, Rule>>,
    variables: map<string, Variable>)

  datatype Error =
    | MetadataNotProvided
    | MetadataParsingError(message: string)
    | VariableNotFound(config: string)
    | MissingEntityType(entitySet: string)
    | MissingLinkTarget(entitySet: string, index: nat)
    | MissingChosenValues(navigation: string, property: string)
    | RecursionTooDeep

  datatype Result<T> = Ok(value: T) | Err(error: Error)

  /** What the host's XML parser makes of the metadata text. */
  datatype Parsed = Parsed(model: Schema.Model) | ParseFailed(message: string)

  /** The constructor's checks on the metadata: missing metadata and a
      parser failure are errors, the latter carrying the parser's message. */
  function PrepareMetadata(metadata: string, parse: string -> Parsed): (r: Result<Schema.Model>)
    ensures r.Ok? <==> metadata != "" && parse(metadata).Parsed?
    ensures r.Ok? ==> r.value == parse(metadata).model
    ensures r == Err(MetadataNotProvided) <==> metadata == ""
    ensures r.Err? && metadata != "" ==>
              r.error.MetadataParsingError? && r.error.message == "Metadata parsing error: " + parse(metadata).message
  {
    if metadata == "" then Err(MetadataNotProvided)
    else match parse(metadata)
      case ParseFailed(message) => Err(MetadataParsingError("Metadata parsing error: " + message))
      case Parsed(model) => Ok(model)
  }

  /** `options.numberOfEntitiesToGenerate || 30`. */
  function NumberOfEntities(option: int): (n: int)
    ensures n != 0
    ensures option != 0 ==> n == option
    ensures option == 0 ==> n == 30
  {
    if option == 0 then 30 else option
  }

  function RuleTruthy(rule: Rule): bool {
    !(rule.Text? && rule.config == "")
  }

  /** The rule configured for `property` of `owner`, when there is a truthy
      one: the empty string is the only configured rule that is falsy. */
  function RuleFor(predefined: map<string, map<string, Rule>>, owner: string, property: string): (r: Option<Rule>)
    ensures r.None? <==> owner !in predefined || property !in predefined[owner] || predefined[owner][property] == Text("")
    ensures r.Some? ==> r.value == predefined[owner][property] && r.value != Text("")
  {
    if owner in predefined && property in predefined[owner] && RuleTruthy(predefined[owner][property])
    then Some(predefined[owner][property])
    else None
  }

  /** `config.indexOf("$ref") !== -1`. */
  predicate ContainsRef(config: string)
    decreases |config|
  {
    |config| >= 4 && (config[..4] == "$ref" || ContainsRef(config[1..]))
  }

  function IndexOf(s: string, c: char): (i: int)
    ensures -1 <= i < |s|
    ensures i >= 0 ==> s[i] == c && forall k :: 0 <= k < i ==> s[k] != c
    ensures i == -1 ==> c !in s
  {
    if s == [] then -1
    else if s[0] == c then 0
    else var j := IndexOf(s[1..], c); if j < 0 then -1 else j + 1
  }

  /** `config.split(":")[1]`: the text between the first and the second
      colon (or the end). Without a colon the element is `undefined`, which
      as a property name reads "undefined". */
  function VariableName(config: string): (name: string)
    ensures ':' !in config ==> name == "undefined"
    ensures ':' in config ==> ':' !in name
    ensures ':' in config ==> exists i :: 0 <= i < |config| && config[i] == ':' && ':' !in config[..i]
                                  && name <= config[i + 1..]
                                  && (|name| == |config| - i - 1 || config[i + 1 + |name|] == ':')
  {
    var i := IndexOf(config, ':');
    if i < 0 then "undefined"
    else
      var rest := config[i + 1..];
      var j := IndexOf(rest, ':');
      assert ':' !in config[..i] by {
        forall k | 0 <= k < i ensures config[..i][k] != ':' { }
      }
      if j < 0 then rest
      else
        assert ':' !in rest[..j] by {
          forall k | 0 <= k < j ensures rest[..j][k] != ':' { }
        }
        rest[..j]
  }

  function VariableTruthy(v: Variable): bool {
    v.ListVariable? || Truthy(v.value)
  }

  /** The first entry whose key is truthy and `===` the referenced value,
      or the number of entries when none is. */
  function FirstMatchingEntry(values: seq<Entry>, referenced: Value): (k: nat)
    ensures k <= |values|
    ensures k < |values| ==> Truthy(values[k].key) && StrictEq(values[k].key, referenced)
    ensures forall j :: 0 <= j < k ==> !(Truthy(values[j].key) && StrictEq(values[j].key, referenced))
  {
    if values == [] then 0
    else if Truthy(values[0].key) && StrictEq(values[0].key, referenced) then 0
    else 1 + FirstMatchingEntry(values[1..], referenced)
  }

  /** The index of the first property with the given name, or the number of
      properties when none has it. */
  function FirstPropertyNamed(properties: seq<Schema.Property>, name: string): (k: nat)
    ensures k <= |properties|
    ensures k < |properties| ==> properties[k].name == name
    ensures forall j :: 0 <= j < k ==> properties[j].name != name
  {
    if properties == [] then 0
    else if properties[0].name == name then 0
    else 1 + FirstPropertyNamed(properties[1..], name)
  }

  function Names(properties: seq<Schema.Property>): set<string> {
    set p | p in properties :: p.name
  }

  /** The entity sets left after deleting every skipped one. A set is only
      deleted when the name search finds it, and the search's result must be
      truthy, so a set named "" is never skipped. */
  function NonSkipped(sets: seq<Schema.EntitySet>, skip: seq<string>): (r: seq<Schema.EntitySet>)
    ensures forall s :: s in r <==> s in sets && (s.name == "" || s.name !in skip)
    ensures |r| <= |sets|
  {
    if sets == [] then []
    else
      var rest := NonSkipped(sets[..|sets| - 1], skip);
      var last := sets[|sets| - 1];
      assert sets == sets[..|sets| - 1] + [last];
      if last.name != "" && last.name in skip then rest else rest + [last]
  }

  /** Skipping keeps the document order of the sets that stay. */
  lemma {:induction false} NonSkippedKeepsOrder(sets: seq<Schema.EntitySet>, skip: seq<string>, n: nat)
    requires n <= |sets|
    ensures NonSkipped(sets[..n], skip) <= NonSkipped(sets, skip)
    decreases |sets|
  {
    if n < |sets| {
      assert sets[..n] == sets[..|sets| - 1][..n];
      NonSkippedKeepsOrder(sets[..|sets| - 1], skip, n);
    } else {
      assert sets[..n] == sets;
    }
  }

  /** Skipping keeps set names distinct. */
  lemma {:induction false} NonSkippedDistinct(sets: seq<Schema.EntitySet>, skip: seq<string>)
    requires Schema.DistinctSetNames(sets)
    ensures Schema.DistinctSetNames(NonSkipped(sets, skip))
    decreases |sets|
  {
    if sets != [] {
      var init := sets[..|sets| - 1];
      var last := sets[|sets| - 1];
      NonSkippedDistinct(init, skip);
      var rest := NonSkipped(init, skip);
      forall i | 0 <= i < |rest| ensures rest[i].name != last.name {
        assert rest[i] in init;
        var k :| 0 <= k < |init| && init[k] == rest[i];
        assert sets[k] == rest[i];
      }
    }
  }

  // --------------------------------------------------------- chosen values

  type Chosen = map<string, map<string, seq<Value>>>

  /** The chosen-values table after `_predefinedChosenValues[owner][property]`
      has been created as `[]` where it was missing. */
  function EnsureChosen(c: Chosen, owner: string, property: string): (r: Chosen)
    ensures owner in r && property in r[owner]
    ensures r[owner][property] == if owner in c && property in c[owner] then c[owner][property] else []
    ensures r.Keys == c.Keys + {owner}
    ensures forall o :: o in c && o != owner ==> r[o] == c[o]
    ensures owner in c ==> r[owner].Keys == c[owner].Keys + {property}
    ensures forall p :: owner in c && p in c[owner] ==> r[owner][p] == c[owner][p]
  {
    var row := if owner in c then c[owner] else map[];
    c[owner := if property in row then row else row[property := []]]
  }

  /** The table after `v` has been pushed onto the list of `owner`/`property`. */
  function AppendChosen(c: Chosen, owner: string, property: string, v: Value): (r: Chosen)
    requires owner in c && property in c[owner]
    ensures r.Keys == c.Keys && r[owner].Keys == c[owner].Keys
    ensures r[owner][property] == c[owner][property] + [v]
    ensures forall o :: o in c && o != owner ==> r[o] == c[o]
    ensures forall p :: p in c[owner] && p != property ==> r[owner][p] == c[owner][p]
  {
    c[owner := c[owner][property := c[owner][property] + [v]]]
  }

  /** `options[Math.floor(Math.random() * options.length)]`: some element of
      the array, and `undefined` for the empty array. */
  method Pick(options: seq<Value>) returns (v: Value)
    ensures options != [] ==> v in options
    ensures options == [] ==> v == Undefined
  {
    if options == [] {
      v := Undefined;
    } else {
      var k :| 0 <= k < |options|;
      v := options[k];
    }
  }
}
