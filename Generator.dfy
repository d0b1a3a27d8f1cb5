/** The mock generator: a class holding the generation options, the
    per-type random counters, the values chosen by predefined rules and the
    generated data, with the operations that fill them. */
module Generator {
  import opened Values
  import opened Schema
  import opened Rules
  import PseudoRandom
  import Formats
  import Dedup
  import Uris

  /** Bound on the nesting of dependent rules and complex types; the source
      recurses without one. */
  const GenerationFuel: nat := 100

  /** How the default of a type is produced. */
  datatype Kind =
    | StringKind
    | DateKind(suffix: string)   // DateTime, DateTimeOffset
    | IntKind                    // Int16, Int32, Int64: the shared "Int" stream
    | DecimalKind
    | BooleanKind
    | DigitKind                  // Byte, SByte
    | DoubleKind
    | SingleKind
    | TimeKind
    | GuidKind
    | BinaryKind
    | ComplexKind                // any other name: looked up among the complex types
  {
    /** Defaults taking exactly one draw. */
    predicate SingleDraw() {
      IntKind? || DecimalKind? || BooleanKind? || DigitKind? || DoubleKind? || SingleKind? || BinaryKind?
    }

    /** Defaults taking several draws from the type's own stream. */
    predicate MultiDraw() {
      DateKind? || TimeKind? || GuidKind?
    }
  }

  /** The branch of the source's type switch a type name takes. */
  function KindOf(t: string): Kind {
    if t == "String" then StringKind
    else if t == "DateTime" then DateKind(")/")
    else if t == "DateTimeOffset" then DateKind("+0000)/")
    else if t == "Int16" || t == "Int32" || t == "Int64" then IntKind
    else if t == "Decimal" then DecimalKind
    else if t == "Boolean" then BooleanKind
    else if t == "Byte" || t == "SByte" then DigitKind
    else if t == "Double" then DoubleKind
    else if t == "Single" then SingleKind
    else if t == "Time" then TimeKind
    else if t == "Guid" then GuidKind
    else if t == "Binary" then BinaryKind
    else ComplexKind
  }

  /** The stream a type draws from: the three integer types share "Int". */
  function StreamOf(t: string): (s: string)
    ensures s == "Int" <==> t == "Int16" || t == "Int32" || t == "Int64" || t == "Int"
    ensures s != t ==> s == "Int"
  {
    if KindOf(t) == IntKind then "Int" else t
  }

  /** Two types draw from the same stream exactly when they are the same
      type or both are integer types, so a draw for one type never moves
      the stream of another. */
  lemma SharedStream(a: string, b: string)
    ensures StreamOf(a) == StreamOf(b) <==>
              a == b || (IntegerStream(a) && IntegerStream(b))
  {
  }

  predicate IntegerStream(t: string) {
    t == "Int16" || t == "Int32" || t == "Int64" || t == "Int"
  }

  /** The default of a single-draw kind other than Binary, from the
      stream's new counter `seed` (the draw is seed / Modulus). */
  function SingleDrawValue(kind: Kind, seed: nat): Value
    requires seed < PseudoRandom.Modulus
  {
    match kind
    case IntKind => Num(PseudoRandom.Scaled(seed, 10000))
    case DecimalKind => Frac(PseudoRandom.Scaled(seed, 1000000), 100)
    case BooleanKind => Bool(2 * seed < PseudoRandom.Modulus)
    case DoubleKind => Frac(seed * 10, PseudoRandom.Modulus)
    case SingleKind => Frac(seed * 1000000000, PseudoRandom.Modulus)
    case _ => Num(PseudoRandom.Scaled(seed, 10))
  }

  /** `"/Date(" + ms + suffix` for the host clock's time with year
      2000 + `year`, day of month `day` and month `month`. */
  function DateLiteral(host: Host, year: nat, day: nat, month: nat, suffix: string): string {
    "/Date(" + IntText(host.epochMs(2000 + year, day, month)) + suffix
  }

  /** The DateTime/DateTimeOffset default drawn from the counters `seeds`:
      three successive draws from stream `t`, scaled to 20, 30 and 12, give
      the year offset, the day of month and the month. */
  function DateFromDraws(host: Host, seeds: map<string, nat>, t: string, suffix: string): string {
    DateLiteral(host,
      PseudoRandom.Scaled(PseudoRandom.AdvanceTimes(seeds, t, 1)[t], 20),
      PseudoRandom.Scaled(PseudoRandom.AdvanceTimes(seeds, t, 2)[t], 30),
      PseudoRandom.Scaled(PseudoRandom.AdvanceTimes(seeds, t, 3)[t], 12),
      suffix)
  }

  /** The template has an `x` or `y` to fill. */
  predicate HasPlaceholder(template: string) {
    'x' in template || 'y' in template
  }

  lemma HasPlaceholderSnoc(template: string, c: char)
    ensures HasPlaceholder(template + [c]) <==> HasPlaceholder(template) || c == 'x' || c == 'y'
  {
    assert forall d :: d in template + [c] <==> d in template || d == c;
  }

  /** What filling `template` draws, starting from the counters `seeds`:
      each placeholder advances the "Guid" stream once and takes
      floor(draw * 16) as its digit; any other character draws nothing and
      has 0 in its place. The result is the counters after the last draw
      and the digit of each position. */
  ghost function GuidFill(seeds: map<string, nat>, template: string): (r: (map<string, nat>, seq<nat>))
    ensures |r.1| == |template| && Formats.Nibbles(r.1)
    decreases |template|
  {
    if template == [] then (seeds, [])
    else
      var (before, ds) := GuidFill(seeds, template[..|template| - 1]);
      var c := template[|template| - 1];
      if c == 'x' || c == 'y' then
        var after := PseudoRandom.Advance(before, "Guid");
        (after, ds + [PseudoRandom.Scaled(after["Guid"], 16)])
      else (before, ds + [0])
  }

  /** The number of placeholders of a template. */
  function PlaceholderCount(template: string): (n: nat)
    ensures n <= |template|
    decreases |template|
  {
    if template == [] then 0
    else
      var c := template[|template| - 1];
      PlaceholderCount(template[..|template| - 1]) + (if c == 'x' || c == 'y' then 1 else 0)
  }

  lemma GuidFillSnoc(seeds: map<string, nat>, template: string, c: char)
    ensures GuidFill(seeds, template + [c]) ==
              var (before, ds) := GuidFill(seeds, template);
              if c == 'x' || c == 'y' then
                var after := PseudoRandom.Advance(before, "Guid");
                (after, ds + [PseudoRandom.Scaled(after["Guid"], 16)])
              else (before, ds + [0])
  {
    assert (template + [c])[..|template|] == template;
  }

  /** Filling a template advances the "Guid" stream once per placeholder
      and moves no other stream. */
  lemma {:induction false} GuidFillCounter(seeds: map<string, nat>, template: string)
    ensures GuidFill(seeds, template).0 == PseudoRandom.AdvanceTimes(seeds, "Guid", PlaceholderCount(template))
    decreases |template|
  {
    if template != [] {
      var init := template[..|template| - 1];
      GuidFillCounter(seeds, init);
    }
  }

  /** A template draws at all exactly when it has a placeholder. */
  lemma {:induction false} PlaceholderCountPositive(template: string)
    ensures PlaceholderCount(template) > 0 <==> HasPlaceholder(template)
    decreases |template|
  {
    if template != [] {
      var init := template[..|template| - 1];
      var c := template[|template| - 1];
      assert template == init + [c];
      PlaceholderCountPositive(init);
      HasPlaceholderSnoc(init, c);
    }
  }

  /** Only the counter of stream `t` may have moved, and it now exists. */
  ghost predicate OnlyStreamMoved(before: map<string, nat>, after: map<string, nat>, t: string) {
    && after.Keys == before.Keys + {t}
    && forall u :: u in before && u != t ==> after[u] == before[u]
  }

  ghost predicate DateShape(host: Host, suffix: string, s: string) {
    exists y: nat, d: nat, m: nat :: y < 20 && d < 30 && m < 12 && s == DateLiteral(host, y, d, m, suffix)
  }

  /** `PT{0..22}H{0..58}M{0..58}S`. */
  ghost predicate TimeShape(s: string) {
    exists h: nat, m: nat, sec: nat :: h < 23 && m < 59 && sec < 59 && s == Formats.TimeText(h, m, sec)
  }

  /** A Time default reads back as hours, minutes and seconds within their ranges. */
  lemma TimeShapeParses(s: string)
    requires TimeShape(s)
    ensures Formats.ParseTime(s).Some?
    ensures var (h, m, sec) := Formats.ParseTime(s).value; h < 23 && m < 59 && sec < 59
  {
    var h: nat, m: nat, sec: nat :| h < 23 && m < 59 && sec < 59 && s == Formats.TimeText(h, m, sec);
    Formats.TimeRoundTrip(h, m, sec);
  }

  /** 32 characters `0`/`1` reading back as a mask in [-2^31, 2^31 - 1). */
  ghost predicate BinaryShape(s: string) {
    && |s| == 32
    && (forall k :: 0 <= k < 32 ==> s[k] == '0' || s[k] == '1')
    && -(Formats.Two31 as int) <= Formats.SignedValue(s) < Formats.Two31 - 1
  }

  /** The shape of the default value of a property named `name` of type `t`. */
  ghost predicate DefaultShape(name: string, t: string, host: Host, complexTypes: map<string, StructType>, v: Value) {
    match KindOf(t)
    case StringKind => v.Str? && exists n: nat :: n != 0 && v.s == Formats.StringDefault(name, n)
    case DateKind(suffix) => v.Str? && DateShape(host, suffix, v.s)
    case IntKind => v.Num? && 0 <= v.n < 10000
    case DigitKind => v.Num? && 0 <= v.n < 10
    case DecimalKind => v.Frac? && v.den == 100 && 0 <= v.num < 1000000
    case BooleanKind => v.Bool?
    case DoubleKind =>
      v.Frac? && v.den == PseudoRandom.Modulus && 0 <= v.num < 10 * PseudoRandom.Modulus && v.num % 10 == 0
    case SingleKind =>
      v.Frac? && v.den == PseudoRandom.Modulus && 0 <= v.num < 1000000000 * PseudoRandom.Modulus && v.num % 1000000000 == 0
    case TimeKind => v.Str? && TimeShape(v.s)
    case GuidKind => v.Str? && Formats.GuidShape(v.s)
    case BinaryKind => v.Str? && BinaryShape(v.s)
    case ComplexKind =>
      if t in complexTypes then v.Obj? && v.fields.Keys == Names(complexTypes[t].properties)
      else v == Obj(map[])
  }

  /** The single-draw defaults have their shapes. */
  lemma SingleDrawShape(name: string, t: string, host: Host, complexTypes: map<string, StructType>, seed: nat)
    requires KindOf(t).SingleDraw() && !KindOf(t).BinaryKind? && seed < PseudoRandom.Modulus
    ensures DefaultShape(name, t, host, complexTypes, SingleDrawValue(KindOf(t), seed))
  {
    if KindOf(t).DoubleKind? || KindOf(t).SingleKind? {
      var scale: nat := if KindOf(t).DoubleKind? then 10 else 1000000000;
      assert seed * scale < scale * PseudoRandom.Modulus by {
        assert (PseudoRandom.Modulus - seed) * scale > 0;
      }
      assert (seed * scale) % scale == 0;
    }
  }

  /** `options[Math.floor(Math.random() * options.length)]` gave `v`:
      an element of the array, or `undefined` for the empty array. */
  ghost predicate Picked(options: seq<Value>, v: Value) {
    && (options != [] ==> v in options)
    && (options == [] ==> v == Undefined)
  }

  /** `v` was picked from `options` and appended to the chosen values of
      `owner`/`property`. */
  ghost predicate Recorded(options: seq<Value>, v: Value, before: Chosen, after: Chosen, owner: string, property: string) {
    && Picked(options, v)
    && after == AppendChosen(EnsureChosen(before, owner, property), owner, property, v)
  }

  /** A dependent rule's value for a matched entry. */
  function MatchedValue(entry: Entry): Value {
    if Truthy(entry.value) then entry.value else Str("missing value")
  }

  /** Property names are unique within the type. */
  ghost predicate DistinctNames(properties: seq<Property>) {
    forall i, j :: 0 <= i < j < |properties| ==> properties[i].name != properties[j].name
  }

  /** `for (i = 0; i < n; i++)` runs max(n, 0) times. */
  function EntityCount(n: int): (c: nat)
    ensures n >= 0 ==> c == n
    ensures n < 0 ==> c == 0
  {
    if n < 0 then 0 else n
  }

  /** Records generated per entity set (before de-duplication) for the
      constructor's `numberOfEntitiesToGenerate`: an absent count gives 30,
      a positive one exactly that many and a negative one none. */
  lemma RecordsPerSet(option: int)
    ensures option == 0 ==> EntityCount(NumberOfEntities(option)) == 30
    ensures option > 0 ==> EntityCount(NumberOfEntities(option)) == option
    ensures option < 0 ==> EntityCount(NumberOfEntities(option)) == 0
  {
  }

  /** The fields of a record generated from `st`. */
  function Fields(st: Option<StructType>): set<string> {
    if st.Some? then Names(st.value.properties) else {}
  }

  /** `to.propRef[j]`, which reads as "undefined" past the end. */
  function PropRefAt(refs: seq<string>, j: nat): (r: string)
    ensures j < |refs| ==> r == refs[j]
    ensures j >= |refs| ==> r == "undefined"
  {
    if j < |refs| then refs[j] else "undefined"
  }

  function SetNames(sets: seq<EntitySet>): set<string> {
    set es | es in sets :: es.name
  }

  /** The data after field `field` of record `i` of set `s` has been set to
      `v`: every set keeps its length and every other record and field is
      unchanged. */
  function SetField(data: map<string, seq<Record>>, s: string, i: nat, field: string, v: Value): (r: map<string, seq<Record>>)
    requires s in data && i < |data[s]|
    ensures r.Keys == data.Keys
    ensures forall t :: t in data ==> |r[t]| == |data[t]|
    ensures r[s][i] == data[s][i][field := v]
    ensures forall t, k :: t in data && 0 <= k < |data[t]| && (t != s || k != i) ==> r[t][k] == data[t][k]
  {
    data[s := data[s][i := data[s][i][field := v]]]
  }

  /** A generated property value, and the record as the generation left it
      (a dependent rule may have generated the referenced property first). */
  datatype Generated = Generated(value: Value, entity: Record)

  class MockGenerator {
    const predefinedValuesConfig: map<string, map<string, Rule>>
    const skipMockGeneration: seq<string>
    const distinctValues: seq<string>
    const variables: map<string, Variable>
    const numberOfEntities: int
    const metadata: Model
    const host: Host
    var rootUri: string
    var predefinedChosenValues: Chosen
    var randomSeed: map<string, nat>
    var mockData: map<string, seq<Record>>

    /** Takes the parsed metadata (see `Rules.PrepareMetadata`) and the
        options; the entity count falls back to 30 and the root URI gets a
        trailing slash. */
    constructor (model: Model, options: Options, host: Host)
      ensures metadata == model && this.host == host
      ensures predefinedValuesConfig == options.predefined && variables == options.variables
      ensures skipMockGeneration == options.skipMockGeneration && distinctValues == options.distinctValues
      ensures numberOfEntities == NumberOfEntities(options.numberOfEntitiesToGenerate)
      ensures numberOfEntities != 0
      ensures rootUri == Uris.WithTrailingSlash(options.mockDataRootUri) && Uris.EndsWithSlash(rootUri)
      ensures predefinedChosenValues == map[] && randomSeed == map[] && mockData == map[]
    {
      predefinedValuesConfig := options.predefined;
      skipMockGeneration := options.skipMockGeneration;
      distinctValues := options.distinctValues;
      variables := options.variables;
      numberOfEntities := NumberOfEntities(options.numberOfEntitiesToGenerate);
      metadata := model;
      this.host := host;
      var uri := options.mockDataRootUri;
      if !Uris.EndsWithSlash(uri) {
        uri := uri + "/";
      }
      rootUri := uri;
      predefinedChosenValues := map[];
      randomSeed := map[];
      mockData := map[];
    }

    /** Advances the counter of stream `t`, creating it at 0 first, and
        returns the new counter (the draw is counter / Modulus). */
    method GetPseudoRandomNumber(t: string) returns (seed: nat)
      modifies this`randomSeed
      ensures randomSeed == PseudoRandom.Advance(old(randomSeed), t)
      ensures seed == randomSeed[t] && seed < PseudoRandom.Modulus
    {
      if t !in randomSeed {
        randomSeed := randomSeed[t := 0];
      }
      randomSeed := randomSeed[t := PseudoRandom.NextSeed(randomSeed[t])];
      seed := randomSeed[t];
    }

    /** `Math.floor(draw * k)` for one draw from stream `t`. */
    method Draw(t: string, k: nat) returns (r: nat)
      requires k > 0
      modifies this`randomSeed
      ensures randomSeed == PseudoRandom.Advance(old(randomSeed), t)
      ensures r == PseudoRandom.Scaled(randomSeed[t], k) && r < k
    {
      var seed := GetPseudoRandomNumber(t);
      r := PseudoRandom.Scaled(seed, k);
    }

    /** The Guid default: each `x`/`y` of the template takes one draw. */
    method GuidDefault() returns (g: string)
      modifies this`randomSeed
      ensures Formats.GuidShape(g)
      ensures (randomSeed, g) == var (after, ds) := GuidFill(old(randomSeed), Formats.GuidTemplate); (after, Formats.Fill(Formats.GuidTemplate, ds))
      ensures OnlyStreamMoved(old(randomSeed), randomSeed, "Guid")
    {
      Formats.GuidTemplateShape();
      assert Formats.GuidTemplate[0] == 'x' && HasPlaceholder(Formats.GuidTemplate);
      ghost var ds;
      g, ds := FillTemplate(Formats.GuidTemplate);
      Formats.GuidFillShape(ds);
    }

    /** `template.replace(/[xy]/g, ...)`: each placeholder takes one draw from
        the "Guid" stream, in order; `ds` are the draws by position. */
    method FillTemplate(template: string) returns (g: string, ghost ds: seq<nat>)
      modifies this`randomSeed
      ensures (randomSeed, ds) == GuidFill(old(randomSeed), template)
      ensures |ds| == |template| && Formats.Nibbles(ds)
      ensures g == Formats.Fill(template, ds)
      ensures HasPlaceholder(template) ==> OnlyStreamMoved(old(randomSeed), randomSeed, "Guid")
      ensures !HasPlaceholder(template) ==> randomSeed == old(randomSeed)
    {
      ds := [];
      g := "";
      var i := 0;
      while i < |template|
        invariant 0 <= i <= |template| && |ds| == i && Formats.Nibbles(ds)
        invariant g == Formats.Fill(template[..i], ds)
        invariant (randomSeed, ds) == GuidFill(old(randomSeed), template[..i])
      {
        var c := template[i];
        assert template[..i + 1] == template[..i] + [c];
        GuidFillSnoc(old(randomSeed), template[..i], c);
        var out, d := FillChar(c);
        Formats.FillSnoc(template[..i], ds, c, d);
        g := g + [out];
        ds := ds + [d];
        i := i + 1;
      }
      assert template[..i] == template;
      GuidFillCounter(old(randomSeed), template);
      PlaceholderCountPositive(template);
    }

    /** One character of the template: a placeholder takes a draw in [0, 16)
        from the "Guid" stream, any other character stays and draws nothing. */
    method FillChar(c: char) returns (out: char, d: nat)
      modifies this`randomSeed
      ensures d < 16
      ensures out == if c == 'x' || c == 'y' then Formats.Substitute(c, d) else c
      ensures c == 'x' || c == 'y' ==>
                && randomSeed == PseudoRandom.Advance(old(randomSeed), "Guid")
                && d == PseudoRandom.Scaled(randomSeed["Guid"], 16)
      ensures c != 'x' && c != 'y' ==> randomSeed == old(randomSeed) && d == 0
    {
      d := 0;
      out := c;
      if c == 'x' || c == 'y' {
        d := Draw("Guid", 16);
        out := Formats.Substitute(c, d);
      }
    }

    /** The rule configured for `p` of `st`, when there is a truthy one. */
    function RuleAt(st: StructType, p: Property): Option<Rule> {
      RuleFor(predefinedValuesConfig, st.name, p.name)
    }

    /** A `$ref:` rule's variable exists and is truthy. */
    predicate VariableFound(config: string) {
      VariableName(config) in variables && VariableTruthy(variables[VariableName(config)])
    }

    /** A String property without a rule: its value is the String default. */
    predicate PlainString(st: StructType, p: Property) {
      KindOf(p.typeName) == StringKind && RuleAt(st, p).None?
    }

    /** Every plain String property already on the record holds
        `name + " " + index`. */
    ghost predicate StringDefaults(st: StructType, e: Record, index: nat) {
      forall k :: 0 <= k < |st.properties| && PlainString(st, st.properties[k]) && st.properties[k].name in e ==>
        e[st.properties[k].name] == Str(Formats.StringDefault(st.properties[k].name, index))
    }

    /** The rule checks end without a value, so the type default is used:
        no rule, a string rule without `$ref`, or a dependent rule with a
        falsy reference, no matching key, or an undeclared referenced
        property. */
    predicate FallsThrough(st: StructType, p: Property, entity: Record) {
      var rule := RuleAt(st, p);
      || rule.None?
      || (rule.value.Text? && !ContainsRef(rule.value.config))
      || (rule.value.Dependent? &&
          var ref := rule.value.reference;
          || ref == ""
          || (Truthy(Get(entity, ref)) && FirstMatchingEntry(rule.value.values, Get(entity, ref)) == |rule.value.values|)
          || (!Truthy(Get(entity, ref)) && FirstPropertyNamed(st.properties, ref) == |st.properties|))
    }

    /** The index a default uses: the given one, or for index 0 one drawn
        from the "String" stream in [101, 10101). */
    method ResolveIndex(index: nat) returns (idx: nat)
      modifies this`randomSeed
      ensures idx != 0
      ensures index != 0 ==> idx == index && randomSeed == old(randomSeed)
      ensures index == 0 ==> randomSeed == PseudoRandom.Advance(old(randomSeed), "String")
                                && idx == 101 + PseudoRandom.Scaled(randomSeed["String"], 10000)
                                && 101 <= idx < 10101
    {
      idx := index;
      if idx == 0 {
        var d := Draw("String", 10000);
        idx := d + 101;
      }
    }

    /** The DateTime and DateTimeOffset defaults: three draws from the
        type's stream set the year, the day of month and the month of the
        host clock's time. */
    method DateDefault(t: string, suffix: string) returns (s: string)
      modifies this`randomSeed
      ensures s == DateFromDraws(host, old(randomSeed), t, suffix)
      ensures randomSeed == PseudoRandom.AdvanceTimes(old(randomSeed), t, 3)
      ensures DateShape(host, suffix, s)
      ensures OnlyStreamMoved(old(randomSeed), randomSeed, t)
    {
      ghost var start := randomSeed;
      var year := Draw(t, 20);
      assert randomSeed == PseudoRandom.AdvanceTimes(start, t, 1);
      var day := Draw(t, 30);
      assert randomSeed == PseudoRandom.AdvanceTimes(start, t, 2);
      var month := Draw(t, 12);
      assert randomSeed == PseudoRandom.AdvanceTimes(start, t, 3);
      s := DateLiteral(host, year, day, month, suffix);
    }

    /** The Time default: hours, minutes and seconds from three draws. */
    method TimeDefault() returns (s: string)
      modifies this`randomSeed
      ensures s == Formats.TimeText(PseudoRandom.Scaled(PseudoRandom.AdvanceTimes(old(randomSeed), "Time", 1)["Time"], 23),
                                    PseudoRandom.Scaled(PseudoRandom.AdvanceTimes(old(randomSeed), "Time", 2)["Time"], 59),
                                    PseudoRandom.Scaled(PseudoRandom.AdvanceTimes(old(randomSeed), "Time", 3)["Time"], 59))
      ensures randomSeed == PseudoRandom.AdvanceTimes(old(randomSeed), "Time", 3)
      ensures TimeShape(s)
      ensures OnlyStreamMoved(old(randomSeed), randomSeed, "Time")
    {
      ghost var start := randomSeed;
      var hours := Draw("Time", 23);
      assert randomSeed == PseudoRandom.AdvanceTimes(start, "Time", 1);
      var minutes := Draw("Time", 59);
      assert randomSeed == PseudoRandom.AdvanceTimes(start, "Time", 2);
      var seconds := Draw("Time", 59);
      assert randomSeed == PseudoRandom.AdvanceTimes(start, "Time", 3);
      s := Formats.TimeText(hours, minutes, seconds);
    }

    /** The Binary default: the 32 bits of a mask drawn in [-2^31, 2^31 - 1). */
    method BinaryDefault() returns (s: string)
      modifies this`randomSeed
      ensures BinaryShape(s)
      ensures randomSeed == PseudoRandom.Advance(old(randomSeed), "Binary")
      ensures Formats.SignedValue(s) == -(Formats.Two31 as int) + PseudoRandom.Scaled(randomSeed["Binary"], 4294967295)
    {
      var k := Draw("Binary", 4294967295);
      s := Formats.MaskText(-(Formats.Two31 as int) + k);
    }

    /** The default of a primitive type, for a non-zero index. */
    method PrimitiveDefault(name: string, t: string, idx: nat) returns (v: Value)
      requires KindOf(t) != ComplexKind && idx != 0
      modifies this`randomSeed
      ensures DefaultShape(name, t, host, metadata.complexTypes, v)
      ensures KindOf(t) == StringKind ==> v == Str(Formats.StringDefault(name, idx)) && randomSeed == old(randomSeed)
      ensures KindOf(t).SingleDraw() ==> randomSeed == PseudoRandom.Advance(old(randomSeed), StreamOf(t))
      ensures KindOf(t).SingleDraw() && KindOf(t) != BinaryKind ==> v == SingleDrawValue(KindOf(t), randomSeed[StreamOf(t)])
      ensures KindOf(t) == BinaryKind ==>
                v.Str? && Formats.SignedValue(v.s) == -(Formats.Two31 as int) + PseudoRandom.Scaled(randomSeed["Binary"], 4294967295)
      ensures KindOf(t).DateKind? ==>
                && v == Str(DateFromDraws(host, old(randomSeed), t, KindOf(t).suffix))
                && randomSeed == PseudoRandom.AdvanceTimes(old(randomSeed), t, 3)
      ensures KindOf(t).MultiDraw() ==> OnlyStreamMoved(old(randomSeed), randomSeed, t)
    {
      var kind := KindOf(t);
      if kind == StringKind {
        v := Str(Formats.StringDefault(name, idx));
      } else if kind.MultiDraw() || kind == BinaryKind {
        v := TextDefault(name, t);
      } else {
        v := SingleDrawDefault(name, t);
      }
    }

    /** The defaults written as text from several draws, or from the one
        Binary draw: DateTime, DateTimeOffset, Time, Guid and Binary. */
    method TextDefault(name: string, t: string) returns (v: Value)
      requires KindOf(t).MultiDraw() || KindOf(t) == BinaryKind
      modifies this`randomSeed
      ensures DefaultShape(name, t, host, metadata.complexTypes, v)
      ensures KindOf(t) == BinaryKind ==>
                && randomSeed == PseudoRandom.Advance(old(randomSeed), "Binary")
                && v.Str? && Formats.SignedValue(v.s) == -(Formats.Two31 as int) + PseudoRandom.Scaled(randomSeed["Binary"], 4294967295)
      ensures KindOf(t).DateKind? ==>
                && v == Str(DateFromDraws(host, old(randomSeed), t, KindOf(t).suffix))
                && randomSeed == PseudoRandom.AdvanceTimes(old(randomSeed), t, 3)
      ensures KindOf(t).MultiDraw() ==> OnlyStreamMoved(old(randomSeed), randomSeed, t)
    {
      match KindOf(t)
      case DateKind(suffix) =>
        assert t == "DateTime" || t == "DateTimeOffset";
        var date := DateDefault(t, suffix);
        v := Str(date);
      case TimeKind =>
        assert t == "Time";
        var time := TimeDefault();
        v := Str(time);
      case GuidKind =>
        assert t == "Guid";
        var g := GuidDefault();
        v := Str(g);
      case BinaryKind =>
        assert t == "Binary";
        var bits := BinaryDefault();
        v := Str(bits);
    }

    /** The defaults taken from one draw: Int, Decimal, Boolean, Byte/SByte,
        Double and Single. */
    method SingleDrawDefault(name: string, t: string) returns (v: Value)
      requires KindOf(t).SingleDraw() && KindOf(t) != BinaryKind
      modifies this`randomSeed
      ensures DefaultShape(name, t, host, metadata.complexTypes, v)
      ensures randomSeed == PseudoRandom.Advance(old(randomSeed), StreamOf(t))
      ensures v == SingleDrawValue(KindOf(t), randomSeed[StreamOf(t)])
    {
      var seed := GetPseudoRandomNumber(StreamOf(t));
      SingleDrawShape(name, t, host, metadata.complexTypes, seed);
      v := SingleDrawValue(KindOf(t), seed);
    }

    /** The default of a primitive type: the index is resolved first (a
        draw from "String" when it is 0), then the type's default is made. */
    method PrimitiveValue(p: Property, index: nat) returns (v: Value)
      requires KindOf(p.typeName) != ComplexKind
      modifies this`randomSeed
      ensures DefaultShape(p.name, p.typeName, host, metadata.complexTypes, v)
      ensures KindOf(p.typeName) == StringKind && index != 0 ==> v == Str(Formats.StringDefault(p.name, index))
      ensures KindOf(p.typeName) == StringKind && index == 0 ==>
                exists n: nat :: 101 <= n < 10101 && v == Str(Formats.StringDefault(p.name, n))
      ensures index != 0 && KindOf(p.typeName).SingleDraw() ==>
                randomSeed == PseudoRandom.Advance(old(randomSeed), StreamOf(p.typeName))
      ensures index != 0 && KindOf(p.typeName).SingleDraw() && KindOf(p.typeName) != BinaryKind ==>
                v == SingleDrawValue(KindOf(p.typeName), randomSeed[StreamOf(p.typeName)])
      ensures index != 0 && KindOf(p.typeName).MultiDraw() ==> OnlyStreamMoved(old(randomSeed), randomSeed, p.typeName)
      ensures index != 0 && KindOf(p.typeName) == StringKind ==> randomSeed == old(randomSeed)
    {
      var idx := ResolveIndex(index);
      v := PrimitiveDefault(p.name, p.typeName, idx);
    }

    /** The type default of `p`. Index 0 is replaced by a draw from the
        "String" stream first; the remaining draws come from the type's own
        stream, the three integer types sharing "Int". Any other type is
        generated as the complex type of that name, and as `{}` when there
        is none. */
    method DefaultValue(p: Property, index: nat, fuel: nat) returns (r: Result<Value>)
      modifies this`randomSeed, this`predefinedChosenValues
      decreases fuel, 1
      ensures r.Ok? ==> DefaultShape(p.name, p.typeName, host, metadata.complexTypes, r.value)
      ensures KindOf(p.typeName) != ComplexKind || p.typeName !in metadata.complexTypes ==>
                r.Ok? && predefinedChosenValues == old(predefinedChosenValues)
      ensures KindOf(p.typeName) == StringKind && index != 0 ==> r == Ok(Str(Formats.StringDefault(p.name, index)))
      ensures KindOf(p.typeName) == StringKind && index == 0 ==>
                exists n: nat :: 101 <= n < 10101 && r == Ok(Str(Formats.StringDefault(p.name, n)))
      ensures index != 0 && KindOf(p.typeName).SingleDraw() ==>
                randomSeed == PseudoRandom.Advance(old(randomSeed), StreamOf(p.typeName))
      ensures index != 0 && KindOf(p.typeName).SingleDraw() && KindOf(p.typeName) != BinaryKind ==>
                r == Ok(SingleDrawValue(KindOf(p.typeName), randomSeed[StreamOf(p.typeName)]))
      ensures index != 0 && KindOf(p.typeName).MultiDraw() ==> OnlyStreamMoved(old(randomSeed), randomSeed, p.typeName)
      ensures index != 0 && (KindOf(p.typeName) == StringKind || (KindOf(p.typeName) == ComplexKind && p.typeName !in metadata.complexTypes)) ==>
                randomSeed == old(randomSeed)
    {
      var t := p.typeName;
      if KindOf(t) != ComplexKind {
        var v := PrimitiveValue(p, index);
        r := Ok(v);
        return;
      }
      var idx := ResolveIndex(index);
      if t in metadata.complexTypes {
        if fuel == 0 {
          r := Err(RecursionTooDeep);
        } else {
          var e := GenerateDataFromEntity(Some(metadata.complexTypes[t]), idx, fuel - 1);
          r := if e.Ok? then Ok(Obj(e.value)) else Err(e.error);
        }
      } else {
        // the lookup among the complex types yields `undefined`, and a
        // record generated from no type is `{}`
        r := Ok(Obj(map[]));
      }
    }

    /** The record after generation only gained properties of the type and
        kept its truthy values, and plain String properties keep holding
        the String default. */
    ghost predicate Extends(st: StructType, before: Record, after: Record, index: nat) {
      && before.Keys <= after.Keys <= before.Keys + Names(st.properties)
      && (forall f :: f in before && Truthy(before[f]) ==> after[f] == before[f])
      && (index != 0 && DistinctNames(st.properties) && StringDefaults(st, before, index) ==> StringDefaults(st, after, index))
    }

    /** With distinct property names, a plain String property's value is `name + " " + index`. */
    ghost predicate StringValue(st: StructType, p: Property, before: Record, index: nat, v: Value) {
      index != 0 && p in st.properties && DistinctNames(st.properties) && StringDefaults(st, before, index) && PlainString(st, p) ==>
        v == Str(Formats.StringDefault(p.name, index))
    }

    /** Storing a generated value under a declared property that was unset
        extends the record. */
    lemma ExtendsStore(st: StructType, entity: Record, mid: Record, k: nat, v: Value, index: nat)
      requires k < |st.properties|
      requires !Truthy(Get(entity, st.properties[k].name))
      requires Extends(st, entity, mid, index)
      requires StringValue(st, st.properties[k], entity, index, v)
      ensures Extends(st, entity, mid[st.properties[k].name := v], index)
    {
      var name := st.properties[k].name;
      var e := mid[name := v];
      assert name in Names(st.properties);
      if index != 0 && DistinctNames(st.properties) && StringDefaults(st, entity, index) {
        forall j | 0 <= j < |st.properties| && PlainString(st, st.properties[j]) && st.properties[j].name in e
          ensures e[st.properties[j].name] == Str(Formats.StringDefault(st.properties[j].name, index))
        {
          if st.properties[j].name == name {
            assert j == k;
          }
        }
      }
    }

    lemma ExtendsTransitive(st: StructType, a: Record, b: Record, c: Record, index: nat)
      requires Extends(st, a, b, index) && Extends(st, b, c, index)
      ensures Extends(st, a, c, index)
    {
    }

    /** `options[Math.floor(Math.random() * options.length)]`, appended to
        the chosen values of `owner`/`property`. */
    method PickAndRecord(options: seq<Value>, owner: string, property: string) returns (v: Value)
      requires owner in predefinedChosenValues && property in predefinedChosenValues[owner]
      modifies this`predefinedChosenValues
      ensures options != [] ==> v in options
      ensures options == [] ==> v == Undefined
      ensures predefinedChosenValues == AppendChosen(old(predefinedChosenValues), owner, property, v)
    {
      v := Pick(options);
      predefinedChosenValues := AppendChosen(predefinedChosenValues, owner, property, v);
    }

    /** A dependent rule with a non-empty reference. A set reference selects
        the first entry whose key matches it; an unset one is generated first
        when the type declares it, and the property is then generated again.
        `None` means the rule gives no value and the default is used. */
    method DependentRule(reference: string, values: seq<Entry>, p: Property, index: nat, st: StructType, entity: Record, fuel: nat)
      returns (r: Option<Result<Generated>>)
      requires RuleAt(st, p) == Some(Dependent(reference, values))
      modifies this`randomSeed, this`predefinedChosenValues
      decreases fuel, 0
      ensures r.None? <==>
                || (Truthy(Get(entity, reference)) && FirstMatchingEntry(values, Get(entity, reference)) == |values|)
                || (!Truthy(Get(entity, reference)) && FirstPropertyNamed(st.properties, reference) == |st.properties|)
      ensures r.None? ==> randomSeed == old(randomSeed) && predefinedChosenValues == old(predefinedChosenValues)
      ensures Truthy(Get(entity, reference)) && FirstMatchingEntry(values, Get(entity, reference)) < |values| ==>
                && r == Some(Ok(Generated(MatchedValue(values[FirstMatchingEntry(values, Get(entity, reference))]), entity)))
                && randomSeed == old(randomSeed) && predefinedChosenValues == old(predefinedChosenValues)
      ensures !Truthy(Get(entity, reference)) && FirstPropertyNamed(st.properties, reference) < |st.properties| ==>
                && (fuel == 0 ==> r == Some(Err(RecursionTooDeep)))
                && (r.Some? && r.value.Ok? ==> reference in r.value.value.entity)
      ensures r.Some? && r.value.Ok? ==> Extends(st, entity, r.value.value.entity, index)
      ensures r.Some? && r.value.Ok? ==> StringValue(st, p, entity, index, r.value.value.value)
    {
      var referenced := Get(entity, reference);
      if Truthy(referenced) {
        var k := FirstMatchingEntry(values, referenced);
        if k < |values| {
          return Some(Ok(Generated(MatchedValue(values[k]), entity)));
        }
        return None;
      }
      var k := FirstPropertyNamed(st.properties, reference);
      if k == |st.properties| {
        return None;
      }
      if fuel == 0 {
        return Some(Err(RecursionTooDeep));
      }
      var g := GenerateField(st.properties[k], index, st, entity, fuel - 1);
      if g.Err? {
        return Some(g);
      }
      var e := g.value.entity[reference := g.value.value];
      ExtendsStore(st, entity, g.value.entity, k, g.value.value, index);
      var again := GenerateField(p, index, st, e, fuel - 1);
      if again.Ok? {
        ExtendsTransitive(st, entity, e, again.value.entity, index);
      }
      return Some(again);
    }

    /** The value a truthy rule gives, once its chosen-values list exists:
        an array is picked from and the pick recorded; a `$ref:` string
        names a variable, which must exist and be truthy, and is picked from
        (and recorded) when it is an array and used as it is otherwise; a
        dependent rule with a reference defers to `DependentRule`. `None`
        means the rule gives no value and the default is used. */
    method RuleValue(rule: Rule, p: Property, index: nat, st: StructType, entity: Record, fuel: nat)
      returns (o: Option<Result<Generated>>)
      requires RuleAt(st, p) == Some(rule)
      requires st.name in predefinedChosenValues && p.name in predefinedChosenValues[st.name]
      modifies this`randomSeed, this`predefinedChosenValues
      decreases fuel, 1
      ensures o.None? <==> FallsThrough(st, p, entity)
      ensures o.None? ==> randomSeed == old(randomSeed) && predefinedChosenValues == old(predefinedChosenValues)
      ensures o.Some? && o.value.Ok? ==> Extends(st, entity, o.value.value.entity, index)
      ensures o.Some? && o.value.Ok? ==> StringValue(st, p, entity, index, o.value.value.value)
      ensures rule.Choices? ==>
                && o.Some? && o.value.Ok? && o.value.value.entity == entity && randomSeed == old(randomSeed)
                && Picked(rule.options, o.value.value.value)
                && predefinedChosenValues == AppendChosen(old(predefinedChosenValues), st.name, p.name, o.value.value.value)
      ensures rule.Text? && ContainsRef(rule.config) && !VariableFound(rule.config) ==>
                o == Some(Err(VariableNotFound(rule.config)))
      ensures rule.Text? && ContainsRef(rule.config) && VariableFound(rule.config) &&
              variables[VariableName(rule.config)].ListVariable? ==>
                && o.Some? && o.value.Ok? && o.value.value.entity == entity && randomSeed == old(randomSeed)
                && Picked(variables[VariableName(rule.config)].options, o.value.value.value)
                && predefinedChosenValues == AppendChosen(old(predefinedChosenValues), st.name, p.name, o.value.value.value)
      ensures rule.Text? && ContainsRef(rule.config) && VariableFound(rule.config) &&
              variables[VariableName(rule.config)].ScalarVariable? ==>
                && o == Some(Ok(Generated(variables[VariableName(rule.config)].value, entity)))
                && randomSeed == old(randomSeed) && predefinedChosenValues == old(predefinedChosenValues)
      ensures rule.Dependent? && rule.reference != "" && Truthy(Get(entity, rule.reference)) &&
              FirstMatchingEntry(rule.values, Get(entity, rule.reference)) < |rule.values| ==>
                && o == Some(Ok(Generated(MatchedValue(rule.values[FirstMatchingEntry(rule.values, Get(entity, rule.reference))]), entity)))
                && randomSeed == old(randomSeed)
      ensures rule.Dependent? && rule.reference != "" && !Truthy(Get(entity, rule.reference)) &&
              FirstPropertyNamed(st.properties, rule.reference) < |st.properties| ==>
                && (fuel == 0 ==> o == Some(Err(RecursionTooDeep)))
                && (o.Some? && o.value.Ok? ==> rule.reference in o.value.value.entity)
    {
      match rule
      case Choices(options) =>
        var v := PickAndRecord(options, st.name, p.name);
        o := Some(Ok(Generated(v, entity)));
      case Text(config) =>
        if !ContainsRef(config) {
          o := None;
        } else if !VariableFound(config) {
          o := Some(Err(VariableNotFound(config)));
        } else {
          match variables[VariableName(config)]
          case ListVariable(options) =>
            var v := PickAndRecord(options, st.name, p.name);
            o := Some(Ok(Generated(v, entity)));
          case ScalarVariable(v) =>
            o := Some(Ok(Generated(v, entity)));
        }
      case Dependent(reference, values) =>
        if reference == "" {
          o := None;
        } else {
          o := DependentRule(reference, values, p, index, st, entity, fuel);
        }
    }

    /** `GeneratePropertyValue` seen from its recursive callers: the record
        only gains declared properties, and a plain String property gets the
        String default. It models no source code of its own; it exists so
        that the mutual recursion through dependent rules and complex types
        passes through a step with this small contract. */
    method GenerateField(p: Property, index: nat, st: StructType, entity: Record, fuel: nat) returns (r: Result<Generated>)
      modifies this`randomSeed, this`predefinedChosenValues
      decreases fuel, 4
      ensures r.Ok? ==> Extends(st, entity, r.value.entity, index)
      ensures r.Ok? ==> StringValue(st, p, entity, index, r.value.value)
    {
      r := GeneratePropertyValue(p, index, st, entity, fuel);
    }

    /** One property's value, by the precedence of the source: a truthy
        value already on the record; then the property's predefined rule (an
        array to pick from, a `$ref:` variable, a dependent rule); then the
        type default. */
    method GeneratePropertyValue(p: Property, index: nat, st: StructType, entity: Record, fuel: nat) returns (r: Result<Generated>)
      modifies this`randomSeed, this`predefinedChosenValues
      decreases fuel, 3
      ensures r.Ok? ==> Extends(st, entity, r.value.entity, index)
      ensures r.Ok? ==> StringValue(st, p, entity, index, r.value.value)
      // a truthy value already there is reused
      ensures Truthy(Get(entity, p.name)) ==>
                && r == Ok(Generated(entity[p.name], entity))
                && randomSeed == old(randomSeed) && predefinedChosenValues == old(predefinedChosenValues)
      // an array rule picks one of its elements and records it
      ensures !Truthy(Get(entity, p.name)) && RuleAt(st, p).Some? && RuleAt(st, p).value.Choices? ==>
                && r.Ok? && r.value.entity == entity && randomSeed == old(randomSeed)
                && Recorded(RuleAt(st, p).value.options, r.value.value, old(predefinedChosenValues), predefinedChosenValues, st.name, p.name)
      // a `$ref:` rule whose variable is missing or falsy is an error
      ensures !Truthy(Get(entity, p.name)) && RuleAt(st, p).Some? && RuleAt(st, p).value.Text? &&
              ContainsRef(RuleAt(st, p).value.config) && !VariableFound(RuleAt(st, p).value.config) ==>
                r == Err(VariableNotFound(RuleAt(st, p).value.config))
      // a list variable is picked from and recorded
      ensures !Truthy(Get(entity, p.name)) && RuleAt(st, p).Some? && RuleAt(st, p).value.Text? &&
              ContainsRef(RuleAt(st, p).value.config) && VariableFound(RuleAt(st, p).value.config) &&
              variables[VariableName(RuleAt(st, p).value.config)].ListVariable? ==>
                && r.Ok? && r.value.entity == entity && randomSeed == old(randomSeed)
                && Recorded(variables[VariableName(RuleAt(st, p).value.config)].options, r.value.value,
                            old(predefinedChosenValues), predefinedChosenValues, st.name, p.name)
      // a scalar variable is returned as it is and not recorded
      ensures !Truthy(Get(entity, p.name)) && RuleAt(st, p).Some? && RuleAt(st, p).value.Text? &&
              ContainsRef(RuleAt(st, p).value.config) && VariableFound(RuleAt(st, p).value.config) &&
              variables[VariableName(RuleAt(st, p).value.config)].ScalarVariable? ==>
                && r == Ok(Generated(variables[VariableName(RuleAt(st, p).value.config)].value, entity))
                && randomSeed == old(randomSeed)
                && predefinedChosenValues == EnsureChosen(old(predefinedChosenValues), st.name, p.name)
      // a dependent rule whose reference is set returns the first matching entry's value
      ensures !Truthy(Get(entity, p.name)) && RuleAt(st, p).Some? && RuleAt(st, p).value.Dependent? &&
              RuleAt(st, p).value.reference != "" && Truthy(Get(entity, RuleAt(st, p).value.reference)) &&
              FirstMatchingEntry(RuleAt(st, p).value.values, Get(entity, RuleAt(st, p).value.reference)) < |RuleAt(st, p).value.values| ==>
                && r == Ok(Generated(MatchedValue(RuleAt(st, p).value.values[
                          FirstMatchingEntry(RuleAt(st, p).value.values, Get(entity, RuleAt(st, p).value.reference))]), entity))
                && randomSeed == old(randomSeed)
      // a dependent rule whose declared reference is not set generates it first
      ensures !Truthy(Get(entity, p.name)) && RuleAt(st, p).Some? && RuleAt(st, p).value.Dependent? &&
              RuleAt(st, p).value.reference != "" && !Truthy(Get(entity, RuleAt(st, p).value.reference)) &&
              FirstPropertyNamed(st.properties, RuleAt(st, p).value.reference) < |st.properties| ==>
                && (fuel == 0 ==> r == Err(RecursionTooDeep))
                && (r.Ok? ==> RuleAt(st, p).value.reference in r.value.entity)
      // otherwise the type default
      ensures !Truthy(Get(entity, p.name)) && FallsThrough(st, p, entity) && r.Ok? ==>
                r.value.entity == entity && DefaultShape(p.name, p.typeName, host, metadata.complexTypes, r.value.value)
      ensures !Truthy(Get(entity, p.name)) && FallsThrough(st, p, entity) &&
              (KindOf(p.typeName) != ComplexKind || p.typeName !in metadata.complexTypes) ==>
                && r.Ok?
                && predefinedChosenValues ==
                     (if RuleAt(st, p).Some? then EnsureChosen(old(predefinedChosenValues), st.name, p.name)
                      else old(predefinedChosenValues))
      ensures !Truthy(Get(entity, p.name)) && FallsThrough(st, p, entity) && index != 0 &&
              KindOf(p.typeName).SingleDraw() && KindOf(p.typeName) != BinaryKind ==>
                && randomSeed == PseudoRandom.Advance(old(randomSeed), StreamOf(p.typeName))
                && r == Ok(Generated(SingleDrawValue(KindOf(p.typeName), randomSeed[StreamOf(p.typeName)]), entity))
    {
      if Truthy(Get(entity, p.name)) {
        if index != 0 && p in st.properties && DistinctNames(st.properties) && StringDefaults(st, entity, index) && PlainString(st, p) {
          var k :| 0 <= k < |st.properties| && st.properties[k] == p;
        }
        return Ok(Generated(entity[p.name], entity));
      }
      r := GenerateUnset(p, index, st, entity, fuel);
    }

    /** `_generatePropertyValue` once the property is known to be unset:
        the predefined rule when one applies, otherwise the type default. */
    method GenerateUnset(p: Property, index: nat, st: StructType, entity: Record, fuel: nat) returns (r: Result<Generated>)
      requires !Truthy(Get(entity, p.name))
      modifies this`randomSeed, this`predefinedChosenValues
      decreases fuel, 2
      ensures r.Ok? ==> Extends(st, entity, r.value.entity, index)
      ensures r.Ok? ==> StringValue(st, p, entity, index, r.value.value)
      // an array rule picks one of its elements and records it
      ensures RuleAt(st, p).Some? && RuleAt(st, p).value.Choices? ==>
                && r.Ok? && r.value.entity == entity && randomSeed == old(randomSeed)
                && Recorded(RuleAt(st, p).value.options, r.value.value, old(predefinedChosenValues), predefinedChosenValues, st.name, p.name)
      // a `$ref:` rule whose variable is missing or falsy is an error
      ensures RuleAt(st, p).Some? && RuleAt(st, p).value.Text? &&
              ContainsRef(RuleAt(st, p).value.config) && !VariableFound(RuleAt(st, p).value.config) ==>
                r == Err(VariableNotFound(RuleAt(st, p).value.config))
      // a list variable is picked from and recorded
      ensures RuleAt(st, p).Some? && RuleAt(st, p).value.Text? &&
              ContainsRef(RuleAt(st, p).value.config) && VariableFound(RuleAt(st, p).value.config) &&
              variables[VariableName(RuleAt(st, p).value.config)].ListVariable? ==>
                && r.Ok? && r.value.entity == entity && randomSeed == old(randomSeed)
                && Recorded(variables[VariableName(RuleAt(st, p).value.config)].options, r.value.value,
                            old(predefinedChosenValues), predefinedChosenValues, st.name, p.name)
      // a scalar variable is returned as it is and not recorded
      ensures RuleAt(st, p).Some? && RuleAt(st, p).value.Text? &&
              ContainsRef(RuleAt(st, p).value.config) && VariableFound(RuleAt(st, p).value.config) &&
              variables[VariableName(RuleAt(st, p).value.config)].ScalarVariable? ==>
                && r == Ok(Generated(variables[VariableName(RuleAt(st, p).value.config)].value, entity))
                && randomSeed == old(randomSeed)
                && predefinedChosenValues == EnsureChosen(old(predefinedChosenValues), st.name, p.name)
      // a dependent rule whose reference is set returns the first matching entry's value
      ensures RuleAt(st, p).Some? && RuleAt(st, p).value.Dependent? &&
              RuleAt(st, p).value.reference != "" && Truthy(Get(entity, RuleAt(st, p).value.reference)) &&
              FirstMatchingEntry(RuleAt(st, p).value.values, Get(entity, RuleAt(st, p).value.reference)) < |RuleAt(st, p).value.values| ==>
                && r == Ok(Generated(MatchedValue(RuleAt(st, p).value.values[
                          FirstMatchingEntry(RuleAt(st, p).value.values, Get(entity, RuleAt(st, p).value.reference))]), entity))
                && randomSeed == old(randomSeed)
      // a dependent rule whose declared reference is not set generates it first
      ensures RuleAt(st, p).Some? && RuleAt(st, p).value.Dependent? &&
              RuleAt(st, p).value.reference != "" && !Truthy(Get(entity, RuleAt(st, p).value.reference)) &&
              FirstPropertyNamed(st.properties, RuleAt(st, p).value.reference) < |st.properties| ==>
                && (fuel == 0 ==> r == Err(RecursionTooDeep))
                && (r.Ok? ==> RuleAt(st, p).value.reference in r.value.entity)
      // otherwise the type default
      ensures FallsThrough(st, p, entity) && r.Ok? ==>
                r.value.entity == entity && DefaultShape(p.name, p.typeName, host, metadata.complexTypes, r.value.value)
      ensures FallsThrough(st, p, entity) &&
              (KindOf(p.typeName) != ComplexKind || p.typeName !in metadata.complexTypes) ==>
                && r.Ok?
                && predefinedChosenValues ==
                     (if RuleAt(st, p).Some? then EnsureChosen(old(predefinedChosenValues), st.name, p.name)
                      else old(predefinedChosenValues))
      ensures FallsThrough(st, p, entity) && index != 0 &&
              KindOf(p.typeName).SingleDraw() && KindOf(p.typeName) != BinaryKind ==>
                && randomSeed == PseudoRandom.Advance(old(randomSeed), StreamOf(p.typeName))
                && r == Ok(Generated(SingleDrawValue(KindOf(p.typeName), randomSeed[StreamOf(p.typeName)]), entity))
    {
      var rule := RuleAt(st, p);
      var o: Option<Result<Generated>> := None;
      if rule.Some? {
        predefinedChosenValues := EnsureChosen(predefinedChosenValues, st.name, p.name);
        o := RuleValue(rule.value, p, index, st, entity, fuel);
      }
      if o.Some? {
        r := o.value;
      } else {
        var d := DefaultValue(p, index, fuel);
        r := if d.Ok? then Ok(Generated(d.value, entity)) else Err(d.error);
      }
    }

    /** A record of the given type: each property in declared order, each
        value stored under the property's name; no type gives `{}`. */
    method GenerateDataFromEntity(st: Option<StructType>, index: nat, fuel: nat) returns (r: Result<Record>)
      modifies this`randomSeed, this`predefinedChosenValues
      decreases fuel, 5
      ensures st.None? ==> r == Ok(map[]) && randomSeed == old(randomSeed) && predefinedChosenValues == old(predefinedChosenValues)
      ensures st.Some? && r.Ok? ==> r.value.Keys == Names(st.value.properties)
      ensures st.Some? && r.Ok? && index != 0 && DistinctNames(st.value.properties) ==> StringDefaults(st.value, r.value, index)
    {
      if st.None? {
        return Ok(map[]);
      }
      var properties := st.value.properties;
      var entity: Record := map[];
      var i := 0;
      while i < |properties|
        invariant 0 <= i <= |properties|
        invariant Names(properties[..i]) <= entity.Keys <= Names(properties)
        invariant index != 0 && DistinctNames(properties) ==> StringDefaults(st.value, entity, index)
      {
        var g := GenerateField(properties[i], index, st.value, entity, fuel);
        if g.Err? {
          return Err(g.error);
        }
        entity := g.value.entity[properties[i].name := g.value.value];
        assert properties[..i + 1] == properties[..i] + [properties[i]];
        i := i + 1;
      }
      assert properties[..i] == properties;
      return Ok(entity);
    }

    /** The records of one entity set: `numberOfEntities` records with
        indices 1, 2, ... in order, de-duplicated by the type's keys when the
        set is listed in `distinctValues`. */
    method GenerateDataFromEntitySet(es: EntitySet) returns (r: Result<seq<Record>>, ghost entries: seq<Record>)
      modifies this`randomSeed, this`predefinedChosenValues
      ensures r.Ok? ==> SetRecords(es, entries, r.value)
      ensures r.Ok? && es.name !in distinctValues ==> |r.value| == EntityCount(numberOfEntities)
      ensures r.Ok? && es.name in distinctValues ==>
                && |r.value| <= EntityCount(numberOfEntities)
                && es.typeName in metadata.entityTypes
                && Dedup.Distinct(r.value, metadata.entityTypes[es.typeName].keys)
      ensures es.name in distinctValues && es.typeName !in metadata.entityTypes ==> r == Err(MissingEntityType(es.name))
      ensures r.Ok? ==> forall i :: 0 <= i < |r.value| ==> r.value[i].Keys == Fields(EntityTypeOf(es))
      ensures r.Ok? && es.name !in distinctValues && es.typeName in metadata.entityTypes &&
              DistinctNames(metadata.entityTypes[es.typeName].properties) ==>
                forall i :: 0 <= i < |r.value| ==> StringDefaults(metadata.entityTypes[es.typeName], r.value[i], i + 1)
    {
      var st := EntityTypeOf(es);
      var generated := GenerateEntries(st, EntityCount(numberOfEntities));
      if generated.Err? {
        return Err(generated.error), [];
      }
      var all := generated.value;
      entries := all;
      if es.name in distinctValues {
        if st.None? {
          return Err(MissingEntityType(es.name)), entries;
        }
        var unique := Dedup.RemoveDuplicates(all, st.value.keys);
        Dedup.UniqueShorter(entries, st.value.keys);
        Dedup.UniqueDistinct(entries, st.value.keys);
        var idx := Dedup.UniqueIsSubsequence(entries, st.value.keys);
        assert forall k :: 0 <= k < |unique| ==> unique[k] == entries[idx[k]];
        return Ok(unique), entries;
      }
      return Ok(all), entries;
    }

    /** `count` records of type `st` with indices 1, 2, ... in order. */
    method GenerateEntries(st: Option<StructType>, count: nat) returns (r: Result<seq<Record>>)
      modifies this`randomSeed, this`predefinedChosenValues
      ensures st.None? ==> r.Ok?
      ensures r.Ok? ==> |r.value| == count && GeneratedEntries(st, r.value)
    {
      var entries: seq<Record> := [];
      var i := 0;
      while i < count
        invariant 0 <= i <= count && |entries| == i
        invariant GeneratedEntries(st, entries)
      {
        var e := GenerateDataFromEntity(st, i + 1, GenerationFuel);
        if e.Err? {
          return Err(e.error);
        }
        GeneratedEntriesAppend(st, entries, e.value);
        entries := entries + [e.value];
        i := i + 1;
      }
      return Ok(entries);
    }

    /** Records generated from `st` with indices 1, 2, ...: each has exactly
        the type's fields, and with distinct property names each plain
        String property holds its default for the record's index. */
    /** What generating set `es` keeps of the records it drew: `entries`
        are the `numberOfEntities` records drawn in order, each with the
        type's fields and its index-based String defaults; a distinct set
        keeps the first record of each run of key-equal records, any other
        set keeps them all. */
    ghost predicate SetRecords(es: EntitySet, entries: seq<Record>, records: seq<Record>) {
      && |entries| == EntityCount(numberOfEntities)
      && GeneratedEntries(EntityTypeOf(es), entries)
      && (es.name !in distinctValues ==> records == entries)
      && (es.name in distinctValues ==>
            && es.typeName in metadata.entityTypes
            && records == Dedup.Unique(entries, metadata.entityTypes[es.typeName].keys))
    }

    ghost predicate GeneratedEntries(st: Option<StructType>, entries: seq<Record>) {
      && (forall k :: 0 <= k < |entries| ==> entries[k].Keys == Fields(st))
      && (st.Some? && DistinctNames(st.value.properties) ==>
            forall k :: 0 <= k < |entries| ==> StringDefaults(st.value, entries[k], k + 1))
    }

    lemma GeneratedEntriesAppend(st: Option<StructType>, entries: seq<Record>, e: Record)
      requires GeneratedEntries(st, entries)
      requires e.Keys == Fields(st)
      requires st.Some? && DistinctNames(st.value.properties) ==> StringDefaults(st.value, e, |entries| + 1)
      ensures GeneratedEntries(st, entries + [e])
    {
      var next := entries + [e];
      assert forall k :: 0 <= k < |entries| ==> next[k] == entries[k];
    }

    /** The entity type of a set, looked up by its unqualified name. */
    function EntityTypeOf(es: EntitySet): Option<StructType> {
      if es.typeName in metadata.entityTypes then Some(metadata.entityTypes[es.typeName]) else None
    }

    /** One step of the referential linker, for key column `j` of navigation
        `nav` of set `es` and record `i`. With a predefined rule for the
        navigation and the target property, the source record's property
        takes one of the values chosen for that rule; otherwise the target
        set's record at the same index takes the source record's value. */
    method LinkEntry(data: map<string, seq<Record>>, es: EntitySet, nav: NavigationProperty, j: nat, i: nat)
      returns (r: Result<map<string, seq<Record>>>)
      requires es.name in data && i < |data[es.name]| && j < |nav.from.propRef|
      ensures var toProp := PropRefAt(nav.to.propRef, j);
              RuleFor(predefinedValuesConfig, nav.name, toProp).Some? &&
              !(nav.name in predefinedChosenValues && toProp in predefinedChosenValues[nav.name]) ==>
                r == Err(MissingChosenValues(nav.name, toProp))
      ensures var toProp := PropRefAt(nav.to.propRef, j);
              var fromProp := nav.from.propRef[j];
              RuleFor(predefinedValuesConfig, nav.name, toProp).Some? &&
              nav.name in predefinedChosenValues && toProp in predefinedChosenValues[nav.name] ==>
                var chosen := predefinedChosenValues[nav.name][toProp];
                && r.Ok? && es.name in r.value && i < |r.value[es.name]|
                && var v := Get(r.value[es.name][i], fromProp);
                   && r.value == SetField(data, es.name, i, fromProp, v)
                   && (chosen != [] ==> v in chosen)
                   && (chosen == [] ==> v == Undefined)
      ensures var toProp := PropRefAt(nav.to.propRef, j);
              RuleFor(predefinedValuesConfig, nav.name, toProp).None? &&
              !(nav.to.entitySet in data && i < |data[nav.to.entitySet]|) ==>
                r == Err(MissingLinkTarget(nav.to.entitySet, i))
      ensures var toProp := PropRefAt(nav.to.propRef, j);
              var fromProp := nav.from.propRef[j];
              RuleFor(predefinedValuesConfig, nav.name, toProp).None? &&
              nav.to.entitySet in data && i < |data[nav.to.entitySet]| ==>
                r == Ok(SetField(data, nav.to.entitySet, i, toProp, Get(data[es.name][i], fromProp)))
    {
      var toProp := PropRefAt(nav.to.propRef, j);
      var fromProp := nav.from.propRef[j];
      if RuleFor(predefinedValuesConfig, nav.name, toProp).Some? {
        if !(nav.name in predefinedChosenValues && toProp in predefinedChosenValues[nav.name]) {
          return Err(MissingChosenValues(nav.name, toProp));
        }
        var v := Pick(predefinedChosenValues[nav.name][toProp]);
        r := Ok(SetField(data, es.name, i, fromProp, v));
      } else {
        if !(nav.to.entitySet in data && i < |data[nav.to.entitySet]|) {
          return Err(MissingLinkTarget(nav.to.entitySet, i));
        }
        r := Ok(SetField(data, nav.to.entitySet, i, toProp, Get(data[es.name][i], fromProp)));
      }
    }

    /** The referential linker: for every set, navigation, key column and
        record in turn, one `LinkEntry` step on the data as the previous
        steps left it. Set names and record counts never change. */
    method LinkReferences(sets: seq<EntitySet>, data0: map<string, seq<Record>>) returns (r: Result<map<string, seq<Record>>>)
      requires forall k :: 0 <= k < |sets| ==> sets[k].name in data0
      ensures r.Ok? ==> r.value.Keys == data0.Keys && forall t :: t in data0 ==> |r.value[t]| == |data0[t]|
    {
      var data := data0;
      var s := 0;
      while s < |sets|
        invariant 0 <= s <= |sets|
        invariant data.Keys == data0.Keys && forall t :: t in data0 ==> |data[t]| == |data0[t]|
      {
        var es := sets[s];
        var n := 0;
        while n < |es.navprops|
          invariant 0 <= n <= |es.navprops| && es.name in data
          invariant data.Keys == data0.Keys && forall t :: t in data0 ==> |data[t]| == |data0[t]|
        {
          var nav := es.navprops[n];
          var j := 0;
          while j < |nav.from.propRef|
            invariant 0 <= j <= |nav.from.propRef| && es.name in data
            invariant data.Keys == data0.Keys && forall t :: t in data0 ==> |data[t]| == |data0[t]|
          {
            var i := 0;
            while i < |data[es.name]|
              invariant es.name in data && 0 <= i <= |data[es.name]|
              invariant data.Keys == data0.Keys && forall t :: t in data0 ==> |data[t]| == |data0[t]|
            {
              var step := LinkEntry(data, es, nav, j, i);
              if step.Err? {
                return Err(step.error);
              }
              data := step.value;
              i := i + 1;
            }
            j := j + 1;
          }
          n := n + 1;
        }
        s := s + 1;
      }
      return Ok(data);
    }

    /** `__metadata` and the deferred navigation stubs on every record of
        one set. */
    method DecorateSet(records: seq<Record>, es: EntitySet, root: string) returns (out: seq<Record>)
      ensures |out| == |records|
      ensures forall i :: 0 <= i < |records| ==> out[i] == Uris.Decorated(records[i], root, es, host)
    {
      out := [];
      var i := 0;
      while i < |records|
        invariant 0 <= i <= |records| && |out| == i
        invariant forall k :: 0 <= k < i ==> out[k] == Uris.Decorated(records[k], root, es, host)
      {
        var e := Uris.DecorateEntry(records[i], root, es, host);
        out := out + [e];
        i := i + 1;
      }
    }

    /** The URI pass over every set: each record of each listed set is
        decorated; sets not listed are left alone. */
    method AttachMetadata(sets: seq<EntitySet>, data0: map<string, seq<Record>>, root: string) returns (data: map<string, seq<Record>>)
      requires forall k :: 0 <= k < |sets| ==> sets[k].name in data0
      requires DistinctSetNames(sets)
      ensures data.Keys == data0.Keys
      ensures forall t :: t in data0 ==> |data[t]| == |data0[t]|
      ensures forall k, i :: 0 <= k < |sets| && 0 <= i < |data0[sets[k].name]| ==>
                data[sets[k].name][i] == Uris.Decorated(data0[sets[k].name][i], root, sets[k], host)
      ensures forall t :: t in data0 && t !in SetNames(sets) ==> data[t] == data0[t]
    {
      data := data0;
      var s := 0;
      while s < |sets|
        invariant 0 <= s <= |sets|
        invariant DecoratedUpTo(sets, data0, data, s, root)
      {
        var es := sets[s];
        var decorated := DecorateSet(data[es.name], es, root);
        DecoratedUpToStep(sets, data0, data, s, root, decorated);
        data := data[es.name := decorated];
        s := s + 1;
      }
    }

    /** The URI pass after the first `s` sets: those are decorated, the rest
        and every unlisted set untouched. */
    ghost predicate DecoratedUpTo(sets: seq<EntitySet>, data0: map<string, seq<Record>>, data: map<string, seq<Record>>, s: nat, root: string)
      requires s <= |sets|
      requires forall k :: 0 <= k < |sets| ==> sets[k].name in data0
    {
      && data.Keys == data0.Keys
      && (forall t :: t in data0 ==> |data[t]| == |data0[t]|)
      && (forall k, i :: 0 <= k < s && 0 <= i < |data0[sets[k].name]| ==>
            data[sets[k].name][i] == Uris.Decorated(data0[sets[k].name][i], root, sets[k], host))
      && (forall k :: s <= k < |sets| ==> data[sets[k].name] == data0[sets[k].name])
      && (forall t :: t in data0 && t !in SetNames(sets) ==> data[t] == data0[t])
    }

    lemma DecoratedUpToStep(sets: seq<EntitySet>, data0: map<string, seq<Record>>, data: map<string, seq<Record>>, s: nat, root: string,
                            decorated: seq<Record>)
      requires s < |sets|
      requires forall k :: 0 <= k < |sets| ==> sets[k].name in data0
      requires DistinctSetNames(sets)
      requires DecoratedUpTo(sets, data0, data, s, root)
      requires |decorated| == |data[sets[s].name]|
      requires forall i :: 0 <= i < |decorated| ==> decorated[i] == Uris.Decorated(data[sets[s].name][i], root, sets[s], host)
      ensures DecoratedUpTo(sets, data0, data[sets[s].name := decorated], s + 1, root)
    {
      var next := data[sets[s].name := decorated];
      assert sets[s] in sets;
      forall k | 0 <= k < |sets| && k != s ensures sets[k].name != sets[s].name {
      }
    }

    /** Each listed set's records, stored under its name. */
    method GenerateSets(sets: seq<EntitySet>) returns (r: Result<map<string, seq<Record>>>, ghost drawn: map<string, seq<Record>>)
      requires DistinctSetNames(sets)
      modifies this`randomSeed, this`predefinedChosenValues
      ensures r.Ok? ==> r.value.Keys == SetNames(sets)
      ensures r.Ok? ==> forall k :: 0 <= k < |sets| ==>
                sets[k].name in drawn && SetRecords(sets[k], drawn[sets[k].name], r.value[sets[k].name])
      ensures r.Ok? ==> forall k :: 0 <= k < |sets| && sets[k].name !in distinctValues ==>
                |r.value[sets[k].name]| == EntityCount(numberOfEntities)
      ensures r.Ok? ==> forall k :: 0 <= k < |sets| && sets[k].name in distinctValues ==>
                |r.value[sets[k].name]| <= EntityCount(numberOfEntities)
    {
      var data: map<string, seq<Record>> := map[];
      drawn := map[];
      var s := 0;
      while s < |sets|
        invariant 0 <= s <= |sets|
        invariant data.Keys == SetNames(sets[..s])
        invariant SetsRecorded(sets, s, drawn, data)
      {
        var g, entries := GenerateDataFromEntitySet(sets[s]);
        if g.Err? {
          return Err(g.error), drawn;
        }
        SetsRecordedStep(sets, s, drawn, data, entries, g.value);
        data := data[sets[s].name := g.value];
        drawn := drawn[sets[s].name := entries];
        assert sets[..s + 1] == sets[..s] + [sets[s]];
        s := s + 1;
      }
      assert sets[..s] == sets;
      forall k | 0 <= k < |sets| ensures
        && (sets[k].name !in distinctValues ==> |data[sets[k].name]| == EntityCount(numberOfEntities))
        && (sets[k].name in distinctValues ==> |data[sets[k].name]| <= EntityCount(numberOfEntities))
      {
        SetRecordsCount(sets[k], drawn[sets[k].name], data[sets[k].name]);
      }
      return Ok(data), drawn;
    }

    /** The first `n` sets hold what generating each of them keeps. */
    ghost predicate SetsRecorded(sets: seq<EntitySet>, n: nat, drawn: map<string, seq<Record>>, data: map<string, seq<Record>>)
      requires n <= |sets|
    {
      forall k :: 0 <= k < n ==>
        sets[k].name in drawn && sets[k].name in data && SetRecords(sets[k], drawn[sets[k].name], data[sets[k].name])
    }

    lemma SetsRecordedStep(sets: seq<EntitySet>, n: nat, drawn: map<string, seq<Record>>, data: map<string, seq<Record>>,
                           entries: seq<Record>, records: seq<Record>)
      requires DistinctSetNames(sets) && n < |sets|
      requires SetsRecorded(sets, n, drawn, data)
      requires SetRecords(sets[n], entries, records)
      ensures SetsRecorded(sets, n + 1, drawn[sets[n].name := entries], data[sets[n].name := records])
    {
    }

    /** A set keeps all `numberOfEntities` records it drew, or at most that
        many when it is de-duplicated. */
    lemma SetRecordsCount(es: EntitySet, entries: seq<Record>, records: seq<Record>)
      requires SetRecords(es, entries, records)
      ensures es.name !in distinctValues ==> |records| == EntityCount(numberOfEntities)
      ensures es.name in distinctValues ==> |records| <= EntityCount(numberOfEntities)
    {
      if es.name in distinctValues {
        Dedup.UniqueShorter(entries, metadata.entityTypes[es.typeName].keys);
      }
    }

    /** Generates every set that is not skipped, links the referential
        constraints, attaches the URIs, and stores the result. */
    method CreateMockData() returns (r: Result<map<string, seq<Record>>>)
      requires WellFormed(metadata)
      modifies this`randomSeed, this`predefinedChosenValues, this`mockData
      ensures r.Ok? ==> mockData == r.value
      ensures r.Err? ==> mockData == old(mockData)
      ensures r.Ok? ==> r.value.Keys == SetNames(NonSkipped(metadata.entitySets, skipMockGeneration))
      ensures r.Ok? ==> forall es :: es in NonSkipped(metadata.entitySets, skipMockGeneration) && es.name !in distinctValues ==>
                |r.value[es.name]| == EntityCount(numberOfEntities)
      ensures r.Ok? ==> forall es :: es in NonSkipped(metadata.entitySets, skipMockGeneration) && es.name in distinctValues ==>
                |r.value[es.name]| <= EntityCount(numberOfEntities)
      ensures r.Ok? ==> forall es, i :: es in NonSkipped(metadata.entitySets, skipMockGeneration) && 0 <= i < |r.value[es.name]| ==>
                "__metadata" in r.value[es.name][i]
    {
      var sets := NonSkipped(metadata.entitySets, skipMockGeneration);
      NonSkippedDistinct(metadata.entitySets, skipMockGeneration);
      var generated, drawn := GenerateSets(sets);
      if generated.Err? {
        return Err(generated.error);
      }
      var linked := LinkReferences(sets, generated.value);
      if linked.Err? {
        return Err(linked.error);
      }
      var root := Uris.RootUri(rootUri);
      var decorated := AttachMetadata(sets, linked.value, root);
      forall es, i | es in sets && 0 <= i < |decorated[es.name]| ensures "__metadata" in decorated[es.name][i] {
        var k :| 0 <= k < |sets| && sets[k] == es;
        Uris.DecoratedKeys(linked.value[es.name][i], root, es, host);
      }
      forall es | es in sets ensures |decorated[es.name]| == |generated.value[es.name]| {
        var k :| 0 <= k < |sets| && sets[k] == es;
      }
      mockData := decorated;
      return Ok(decorated);
    }
  }
}
