/**
 * `SpringBootTestRandomPortEnvironmentPostProcessor`: when a test runs the server on a random
 * port, puts the management port on a random port too, or on the server's, in the test's
 * inlined properties.
 */
module RandomPortPostProcessors {
  import opened Wrappers

  const MANAGEMENT_PORT_PROPERTY := "management.server.port"
  const SERVER_PORT_PROPERTY := "server.port"
  const DEFAULT_SERVER_PORT := 8080
  /** `TestPropertySourceUtils.INLINED_PROPERTIES_PROPERTY_SOURCE_NAME`; `TestPropertySourceUtils` is not part of this model. */
  const INLINED_PROPERTIES := "Inlined Test Properties"

  /** A property value: an `Integer`, a `String`, or any other object. */
  datatype Value = IntValue(n: int) | Text(text: string) | OtherValue(description: string)

  datatype PropertySource = PropertySource(name: string, properties: map<string, Value>)

  /** The exception the conversion service or placeholder resolution throws. */
  datatype ConversionError = ConversionFailed(value: Value) | UnresolvablePlaceholder(text: string)

  /**
   * The environment's conversion service (`convert(value, Integer.class)`, which answers null
   * for an empty text) and `resolveRequiredPlaceholders`; both may throw.
   */
  datatype Conversion = Conversion(convert: Value -> Result<Option<int>, ConversionError>,
                                   resolve: string -> Result<string, ConversionError>)

  /** `getResolvedValueIfPossible`: the text with its placeholders resolved, then converted. */
  function ResolvedValue(conversion: Conversion, text: string): (r: Result<Option<int>, ConversionError>)
    ensures conversion.resolve(text).Failure? ==> r == Failure(conversion.resolve(text).error)
    ensures conversion.resolve(text).Success? ==> r == conversion.convert(Text(conversion.resolve(text).value))
  {
    match conversion.resolve(text)
    case Failure(e) => Failure(e)
    case Success(resolved) => conversion.convert(Text(resolved))
  }

  /**
   * `getPropertyAsInteger(source, property, environment)`: null when absent, the `Integer`
   * itself, otherwise the converted value. A failed conversion of a `String` is retried with
   * its placeholders resolved; a failed conversion of anything else is rethrown.
   */
  function SourcePropertyAsInteger(source: PropertySource, property: string, conversion: Conversion)
    : (r: Result<Option<int>, ConversionError>)
    ensures property !in source.properties ==> r == Success(None)
    ensures property in source.properties && source.properties[property].IntValue?
            ==> r == Success(Some(source.properties[property].n))
    ensures property in source.properties && !source.properties[property].IntValue?
            && conversion.convert(source.properties[property]).Success?
            ==> r == conversion.convert(source.properties[property])
    ensures property in source.properties && source.properties[property].OtherValue?
            && conversion.convert(source.properties[property]).Failure?
            ==> r == conversion.convert(source.properties[property])
    ensures property in source.properties && source.properties[property].Text?
            && conversion.convert(source.properties[property]).Failure?
            ==> r == ResolvedValue(conversion, source.properties[property].text)
  {
    if property !in source.properties then Success(None)
    else match source.properties[property]
      case IntValue(n) => Success(Some(n))
      case Text(text) =>
        (match conversion.convert(Text(text))
         case Success(converted) => Success(converted)
         case Failure(_) => ResolvedValue(conversion, text))
      case OtherValue(_) => conversion.convert(source.properties[property])
  }

  /** A source the environment lookup does not pass over: a non-inlined one that yields a value or throws. */
  predicate Decides(source: PropertySource, property: string, conversion: Conversion)
  {
    source.name != INLINED_PROPERTIES && SourcePropertyAsInteger(source, property, conversion) != Success(None)
  }

  /**
   * `getPropertyAsInteger(environment, property, default)`: the sources are tried in order, the
   * inlined one skipped; the first that yields an integer answers it, a conversion that throws
   * ends the lookup with its exception, and when none decides the default is answered.
   */
  function EnvironmentPropertyAsInteger(sources: seq<PropertySource>, property: string, defaultValue: Option<int>,
                                        conversion: Conversion): (r: Result<Option<int>, ConversionError>)
    ensures (forall i | 0 <= i < |sources| :: !Decides(sources[i], property, conversion)) ==> r == Success(defaultValue)
    ensures r.Failure? ==> exists i | 0 <= i < |sources| :: Decides(sources[i], property, conversion)
                                                          && SourcePropertyAsInteger(sources[i], property, conversion) == r
  {
    if sources == [] then Success(defaultValue)
    else if Decides(sources[0], property, conversion) then SourcePropertyAsInteger(sources[0], property, conversion)
    else
      var r := EnvironmentPropertyAsInteger(sources[1..], property, defaultValue, conversion);
      assert (forall i | 0 <= i < |sources| :: !Decides(sources[i], property, conversion))
             ==> (forall i | 0 <= i < |sources[1..]| :: !Decides(sources[1..][i], property, conversion)) by {
        forall i | 0 <= i < |sources[1..]| ensures sources[1..][i] == sources[i + 1] {}
      }
      assert r.Failure? ==> exists i | 0 <= i < |sources| :: Decides(sources[i], property, conversion)
                                                            && SourcePropertyAsInteger(sources[i], property, conversion) == r by {
        if r.Failure? {
          var i :| 0 <= i < |sources[1..]| && Decides(sources[1..][i], property, conversion)
                   && SourcePropertyAsInteger(sources[1..][i], property, conversion) == r;
          assert sources[i + 1] == sources[1..][i];
        }
      }
      r
  }

  /**
   * The lookup answers what the first deciding source gives, a value or a conversion failure;
   * the sources after it are never converted.
   */
  lemma {:induction false} FirstSourceWins(sources: seq<PropertySource>, property: string, defaultValue: Option<int>,
                                           conversion: Conversion, i: nat)
    requires i < |sources| && Decides(sources[i], property, conversion)
    requires forall j | 0 <= j < i :: !Decides(sources[j], property, conversion)
    ensures EnvironmentPropertyAsInteger(sources, property, defaultValue, conversion)
            == SourcePropertyAsInteger(sources[i], property, conversion)
  {
    if i > 0 {
      FirstSourceWins(sources[1..], property, defaultValue, conversion, i - 1);
    }
  }

  /** `environment.getPropertySources().get(name)`: the position of the first source so named. */
  function FindSource(sources: seq<PropertySource>, name: string): (r: Option<nat>)
    ensures r.Some? ==> r.value < |sources| && sources[r.value].name == name
    ensures r.None? <==> forall i | 0 <= i < |sources| :: sources[i].name != name
  {
    if sources == [] then None
    else if sources[0].name == name then Some(0)
    else match FindSource(sources[1..], name)
      case None => None
      case Some(i) => Some(i + 1)
  }

  /**
   * What `postProcessEnvironment` puts as the inlined management port: the inlined source's
   * position and the value, `None` when nothing changes, or the conversion failure it throws.
   */
  function ManagementPortOverride(sources: seq<PropertySource>, conversion: Conversion)
    : Result<Option<(nat, string)>, ConversionError>
  {
    match FindSource(sources, INLINED_PROPERTIES)
    case None => Success(None)
    case Some(i) =>
      var source := sources[i];
      match SourcePropertyAsInteger(source, SERVER_PORT_PROPERTY, conversion)
      case Failure(e) => Failure(e)
      case Success(testServerPort) =>
        if testServerPort != Some(0) || MANAGEMENT_PORT_PROPERTY in source.properties then Success(None)
        else
          match EnvironmentPropertyAsInteger(sources, MANAGEMENT_PORT_PROPERTY, None, conversion)
          case Failure(e) => Failure(e)
          case Success(managementPort) =>
            if managementPort.None? || managementPort.value == -1 || managementPort.value == 0 then Success(None)
            else
              match EnvironmentPropertyAsInteger(sources, SERVER_PORT_PROPERTY, Some(DEFAULT_SERVER_PORT), conversion)
              case Failure(e) => Failure(e)
              case Success(serverPort) =>
                Success(Some((i, if Some(managementPort.value) != serverPort then "0" else "")))
  }

  /**
   * Nothing changes without an inlined source, nor when that source sets server.port to
   * anything but 0 (absent included) or already sets management.server.port.
   */
  lemma NothingChangesUnlessRandomServerPort(sources: seq<PropertySource>, conversion: Conversion)
    ensures FindSource(sources, INLINED_PROPERTIES).None? ==> ManagementPortOverride(sources, conversion) == Success(None)
    ensures FindSource(sources, INLINED_PROPERTIES).Some? ==>
              var source := sources[FindSource(sources, INLINED_PROPERTIES).value];
              SourcePropertyAsInteger(source, SERVER_PORT_PROPERTY, conversion).Success?
              && (SERVER_PORT_PROPERTY !in source.properties || MANAGEMENT_PORT_PROPERTY in source.properties
                  || SourcePropertyAsInteger(source, SERVER_PORT_PROPERTY, conversion) != Success(Some(0)))
              ==> ManagementPortOverride(sources, conversion) == Success(None)
  {
  }

  /**
   * Every conversion failure met along the way escapes: the inlined server.port first, then the
   * management port's lookup, then the server port's.
   */
  lemma ConversionFailuresEscape(sources: seq<PropertySource>, conversion: Conversion)
    requires FindSource(sources, INLINED_PROPERTIES).Some?
    ensures var source := sources[FindSource(sources, INLINED_PROPERTIES).value];
            SourcePropertyAsInteger(source, SERVER_PORT_PROPERTY, conversion).Failure?
            ==> ManagementPortOverride(sources, conversion)
                == Failure(SourcePropertyAsInteger(source, SERVER_PORT_PROPERTY, conversion).error)
    ensures var source := sources[FindSource(sources, INLINED_PROPERTIES).value];
            SourcePropertyAsInteger(source, SERVER_PORT_PROPERTY, conversion) == Success(Some(0))
            && MANAGEMENT_PORT_PROPERTY !in source.properties
            && EnvironmentPropertyAsInteger(sources, MANAGEMENT_PORT_PROPERTY, None, conversion).Failure?
            ==> ManagementPortOverride(sources, conversion)
                == Failure(EnvironmentPropertyAsInteger(sources, MANAGEMENT_PORT_PROPERTY, None, conversion).error)
  {
  }

  /**
   * When something changes, the management port found elsewhere is neither -1 nor 0, and the
   * value put is "0" iff it differs from the server port (8080 by default), "" otherwise.
   */
  lemma OverrideValue(sources: seq<PropertySource>, conversion: Conversion)
    requires ManagementPortOverride(sources, conversion).Success?
    requires ManagementPortOverride(sources, conversion).value.Some?
    ensures var managementPort := EnvironmentPropertyAsInteger(sources, MANAGEMENT_PORT_PROPERTY, None, conversion);
            var serverPort := EnvironmentPropertyAsInteger(sources, SERVER_PORT_PROPERTY, Some(DEFAULT_SERVER_PORT), conversion);
            var value := ManagementPortOverride(sources, conversion).value.value.1;
            managementPort.Success? && serverPort.Success?
            && managementPort.value.Some? && managementPort.value.value != -1 && managementPort.value.value != 0
            && (value == "0" <==> managementPort.value != serverPort.value)
            && (value == "" <==> managementPort.value == serverPort.value)
    ensures ManagementPortOverride(sources, conversion).value.value.0 == FindSource(sources, INLINED_PROPERTIES).value
  {
  }

  /** The environment's property sources, in lookup order; the inlined source's map is updated in place. */
  class Environment {
    var sources: seq<PropertySource>

    constructor (sources: seq<PropertySource>)
      ensures this.sources == sources
    {
      this.sources := sources;
    }

    /** `postProcessEnvironment`: a conversion failure escapes and leaves the sources as they were. */
    method PostProcessEnvironment(conversion: Conversion) returns (r: Outcome<ConversionError>)
      modifies this
      ensures match ManagementPortOverride(old(sources), conversion)
              case Failure(e) => r == Fail(e) && sources == old(sources)
              case Success(None) => r == Pass && sources == old(sources)
              case Success(Some((i, value))) =>
                r == Pass
                && sources == old(sources)[i := old(sources)[i].(properties := old(sources)[i].properties[MANAGEMENT_PORT_PROPERTY := Text(value)])]
    {
      r := Pass;
      var found := FindSource(sources, INLINED_PROPERTIES);
      if found.None? {
        return;
      }
      var i := found.value;
      var source := sources[i];
      var testServerPort := SourcePropertyAsInteger(source, SERVER_PORT_PROPERTY, conversion);
      if testServerPort.Failure? {
        return Fail(testServerPort.error);
      }
      if testServerPort.value != Some(0) || MANAGEMENT_PORT_PROPERTY in source.properties {
        return;
      }
      var managementPort := EnvironmentPropertyAsInteger(sources, MANAGEMENT_PORT_PROPERTY, None, conversion);
      if managementPort.Failure? {
        return Fail(managementPort.error);
      }
      if managementPort.value.None? || managementPort.value.value == -1 || managementPort.value.value == 0 {
        return;
      }
      var serverPort := EnvironmentPropertyAsInteger(sources, SERVER_PORT_PROPERTY, Some(DEFAULT_SERVER_PORT), conversion);
      if serverPort.Failure? {
        return Fail(serverPort.error);
      }
      var value := if Some(managementPort.value.value) != serverPort.value then "0" else "";
      sources := sources[i := source.(properties := source.properties[MANAGEMENT_PORT_PROPERTY := Text(value)])];
    }
  }
}
