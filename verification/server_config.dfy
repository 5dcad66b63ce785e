/** `DefaultServerConfig`: the loaded properties with the overrides merged over
    them, the four validated numeric settings, and the handler chain the
    server dispatches requests through. Loading the properties file is not
    part of this model: the loaded properties are an argument. */
module ServerConfig {
  import opened Wrappers
  import opened Protocol
  import opened StorageItems
  import opened IntParse
  import opened CommandHandlers
  import StorageApi

  const MaxThreadCountProperty := "jmemcached.server.max.thread.count"
  const InitThreadCountProperty := "jmemcached.server.init.thread.count"
  const ServerPortProperty := "jmemcached.server.port"
  const ClearDataIntervalProperty := "jmemcached.storage.clear.data.interval"

  /** A `java.util.Properties` table, flattened: a key maps to its string value. */
  type Properties = map<string, string>

  /** `JMemcachedConfigException`. */
  datatype ConfigError = ConfigError(message: string)

  /** The range check a getter applies to the parsed value (its
      `BoundaryChecker`), with the unit its message names. */
  datatype Bound = AtLeast(min: int, unit: string) | Between(low: int, high: int)

  predicate Within(b: Bound, v: int) {
    match b
    case AtLeast(min, _) => v >= min
    case Between(low, high) => low <= v <= high
  }

  /** The message of the exception a failed range check throws: it starts
      with the property name and ends with the rejected value. */
  function BoundMessage(name: string, b: Bound, v: int): (r: string)
    ensures |r| > |name| + |IntToString(v)|
    ensures r[..|name|] == name
    ensures r[|r| - |IntToString(v)|..] == IntToString(v)
  {
    match b
    case AtLeast(min, unit) => name + " should be >= " + IntToString(min) + unit + ": " + IntToString(v)
    case Between(low, high) => name + " should be between " + IntToString(low) + " and " + IntToString(high) + ": " + IntToString(v)
  }

  /** The message for a missing or non-numeric value: it starts with the
      property name and ends with the value, a missing one printing as
      "null". */
  function NotANumberMessage(name: string, props: Properties): (r: string)
    ensures var shown := if name in props then props[name] else "null";
      && |r| > |name| + |shown|
      && r[..|name|] == name
      && r[|r| - |shown|..] == shown
  {
    name + " should be a number: " + (if name in props then props[name] else "null")
  }

  /** The constructor's merge: `putAll` of the overrides, when there are any,
      into the loaded properties. */
  function MergeProperties(loaded: Properties, overrides: Option<Properties>): (r: Properties)
    ensures overrides.None? ==> r == loaded
    ensures overrides.Some? ==> r.Keys == loaded.Keys + overrides.value.Keys
    ensures overrides.Some? ==> forall k :: k in overrides.value ==> r[k] == overrides.value[k]
    ensures forall k :: k in loaded && (overrides.None? || k !in overrides.value) ==> r[k] == loaded[k]
  {
    if overrides.None? then loaded else loaded + overrides.value
  }

  /** The parsed value of a property, if it is a 32-bit decimal integer. */
  function ParsedValue(props: Properties, name: string): (r: Option<int>)
    ensures r.Some? <==> name in props && ParseInt(props[name]).Some?
    ensures r.Some? ==> r.value == ParseInt(props[name]).value
  {
    if name in props then ParseInt(props[name]) else None
  }

  /** `getProperty(name, checker)`: parse the value, apply the range check,
      and return the parsed number unchanged. */
  function GetProperty(props: Properties, name: string, b: Bound): (r: Result<int, ConfigError>)
    ensures r.Success? <==> name in props && ParseInt(props[name]).Some? && Within(b, ParseInt(props[name]).value)
    ensures r.Success? ==> r.value == ParseInt(props[name]).value
    ensures name !in props || ParseInt(props[name]).None? ==> r == Failure(ConfigError(NotANumberMessage(name, props)))
    ensures name in props && ParseInt(props[name]).Some? && !Within(b, ParseInt(props[name]).value) ==>
      r == Failure(ConfigError(BoundMessage(name, b, ParseInt(props[name]).value)))
  {
    match ParsedValue(props, name)
    case None => Failure(ConfigError(NotANumberMessage(name, props)))
    case Some(v) => if Within(b, v) then Success(v) else Failure(ConfigError(BoundMessage(name, b, v)))
  }

  /** `getClearDataInterval`: accepted when at least 1000 milliseconds. */
  function ClearDataInterval(props: Properties): (r: Result<int, ConfigError>)
    ensures r.Success? <==> ParsedValue(props, ClearDataIntervalProperty).Some? && ParsedValue(props, ClearDataIntervalProperty).value >= 1000
    ensures r.Success? ==> r.value == ParsedValue(props, ClearDataIntervalProperty).value
  {
    GetProperty(props, ClearDataIntervalProperty, AtLeast(1000, " millis"))
  }

  /** `getServerPort`: accepted when in [0, 65535]. */
  function ServerPort(props: Properties): (r: Result<int, ConfigError>)
    ensures r.Success? <==> ParsedValue(props, ServerPortProperty).Some? && 0 <= ParsedValue(props, ServerPortProperty).value <= 65535
    ensures r.Success? ==> r.value == ParsedValue(props, ServerPortProperty).value
  {
    GetProperty(props, ServerPortProperty, Between(0, 65535))
  }

  /** `getInitThreadCount`: accepted when at least 1. */
  function InitThreadCount(props: Properties): (r: Result<int, ConfigError>)
    ensures r.Success? <==> ParsedValue(props, InitThreadCountProperty).Some? && ParsedValue(props, InitThreadCountProperty).value >= 1
    ensures r.Success? ==> r.value == ParsedValue(props, InitThreadCountProperty).value
  {
    GetProperty(props, InitThreadCountProperty, AtLeast(1, ""))
  }

  /** `getMaxThreadCount`: accepted when at least 1, whatever the init count. */
  function MaxThreadCount(props: Properties): (r: Result<int, ConfigError>)
    ensures r.Success? <==> ParsedValue(props, MaxThreadCountProperty).Some? && ParsedValue(props, MaxThreadCountProperty).value >= 1
    ensures r.Success? ==> r.value == ParsedValue(props, MaxThreadCountProperty).value
  {
    GetProperty(props, MaxThreadCountProperty, AtLeast(1, ""))
  }

  /** `buildHandlersChain`: a Get handler, then four `add` calls, every
      handler constructed over the same store. */
  function BuildHandlersChain(rev: StorageApi.Revision): (r: Node)
    ensures Handlers(r) == [Handler(GetHandler, rev), Handler(PutHandler, rev), Handler(RemoveHandler, rev),
                            Handler(ClearHandler, rev), Handler(UnsupportedHandler, rev)]
  {
    var chain := NewHandler(GetHandler, Some(rev)).value;
    var chain := Add(chain, NewHandler(PutHandler, Some(rev)).value);
    var chain := Add(chain, NewHandler(RemoveHandler, Some(rev)).value);
    var chain := Add(chain, NewHandler(ClearHandler, Some(rev)).value);
    Add(chain, NewHandler(UnsupportedHandler, Some(rev)).value)
  }

  /** The built chain sends GET, PUT, REMOVE and CLEAR each to its own store
      operation and every other command to the unsupported-command failure,
      which makes no store call. */
  lemma BuiltChainDispatch(rev: StorageApi.Revision, req: Request, s: Store, now: int)
    ensures var r := Handle(BuildHandlersChain(rev), req, s, now);
      && (req.command == Get ==> r == GetStep(rev, req, s, now).value)
      && (req.command == Put ==> r == PutStep(rev, req, s, now).value)
      && (req.command == Remove ==> r == RemoveStep(rev, req, s, now).value)
      && (req.command == Clear ==> r == ClearStep(rev, req, s).value)
      && (req.command.Other? ==> r == Handled(Failed(UnsupportedCommand(UnsupportedMessage(req.command))), s, []))
  {
    var chain := BuildHandlersChain(rev);
    var i := match req.command
      case Get => 0
      case Put => 1
      case Remove => 2
      case Clear => 3
      case Other(_) => 4;
    HandleIsFirstServing(chain, req, s, now, i);
  }

  /** The configuration a successful constructor produces: the merged
      properties and the handler chain over its store. */
  datatype Config = Config(properties: Properties, chain: Node)

  /** The constructor: merges the overrides and builds the store and the
      chain. Building the store reads the clear-data interval, so an invalid
      interval fails construction; the other settings are checked only when
      their getters are called. */
  function NewServerConfig(loaded: Properties, overrides: Option<Properties>): (r: Result<Config, ConfigError>)
    ensures r.Success? <==> ClearDataInterval(MergeProperties(loaded, overrides)).Success?
    ensures r.Failure? ==> r.error == ClearDataInterval(MergeProperties(loaded, overrides)).error
    ensures r.Success? ==> r.value.properties == MergeProperties(loaded, overrides)
    ensures r.Success? ==> Handlers(r.value.chain) == [
      Handler(GetHandler, StorageApi.DefaultStorageRevision), Handler(PutHandler, StorageApi.DefaultStorageRevision),
      Handler(RemoveHandler, StorageApi.DefaultStorageRevision), Handler(ClearHandler, StorageApi.DefaultStorageRevision),
      Handler(UnsupportedHandler, StorageApi.DefaultStorageRevision)]
  {
    var props := MergeProperties(loaded, overrides);
    match ClearDataInterval(props)
    case Failure(e) => Failure(e)
    case Success(_) => Success(Config(props, BuildHandlersChain(StorageApi.DefaultStorageRevision)))
  }

  /** A property holding the decimal form of a 32-bit port number is accepted
      exactly when the number is in [0, 65535], and then read back unchanged. */
  lemma PortAcceptedIffInRange(props: Properties, p: int)
    requires IntMin <= p <= IntMax
    requires ServerPortProperty in props && props[ServerPortProperty] == IntToString(p)
    ensures ServerPort(props).Success? <==> 0 <= p <= 65535
    ensures ServerPort(props).Success? ==> ServerPort(props).value == p
    ensures !(0 <= p <= 65535) ==>
      ServerPort(props).error.message == ServerPortProperty + " should be between 0 and 65535: " + IntToString(p)
  {
    ParseIntToString(p);
    if !(0 <= p <= 65535) {
      BoundMessagesAsPrinted(p);
    }
  }

  /** The bounds the getters check print as "0", "1", "1000" and "65535". */
  lemma BoundsPrint()
    ensures IntToString(0) == "0" && IntToString(1) == "1"
    ensures IntToString(1000) == "1000" && IntToString(65535) == "65535"
  {
    PortBoundsPrint();
    assert NatToString(1000) == NatToString(100) + [DigitChar(0)];
    assert NatToString(100) == NatToString(10) + [DigitChar(0)];
    assert NatToString(10) == NatToString(1) + [DigitChar(0)];
  }

  /** The range messages of the four getters, written out as the getters
      build them. */
  lemma BoundMessagesAsPrinted(v: int)
    ensures BoundMessage(ClearDataIntervalProperty, AtLeast(1000, " millis"), v)
      == ClearDataIntervalProperty + " should be >= 1000 millis: " + IntToString(v)
    ensures BoundMessage(ServerPortProperty, Between(0, 65535), v)
      == ServerPortProperty + " should be between 0 and 65535: " + IntToString(v)
    ensures BoundMessage(InitThreadCountProperty, AtLeast(1, ""), v)
      == InitThreadCountProperty + " should be >= 1: " + IntToString(v)
    ensures BoundMessage(MaxThreadCountProperty, AtLeast(1, ""), v)
      == MaxThreadCountProperty + " should be >= 1: " + IntToString(v)
  {
    IntervalMessage(v);
    BetweenMiddle();
    BetweenMessage(ServerPortProperty, 0, 65535, v, " should be between 0 and 65535: ");
    OneMiddle();
    AtLeastMessage(InitThreadCountProperty, 1, "", v, " should be >= 1: ");
    AtLeastMessage(MaxThreadCountProperty, 1, "", v, " should be >= 1: ");
  }

  /** The clear-data interval's range message. */
  lemma IntervalMessage(v: int)
    ensures BoundMessage(ClearDataIntervalProperty, AtLeast(1000, " millis"), v)
      == ClearDataIntervalProperty + " should be >= 1000 millis: " + IntToString(v)
  {
    MillisMiddle();
    AtLeastMessage(ClearDataIntervalProperty, 1000, " millis", v, " should be >= 1000 millis: ");
  }

  /** The fixed middle of the interval message. */
  lemma MillisMiddle()
    ensures " should be >= 1000 millis: " == " should be >= " + IntToString(1000) + " millis" + ": "
  {
    BoundsPrint();
  }

  /** The fixed middle of the port message. */
  lemma BetweenMiddle()
    ensures " should be between 0 and 65535: " == " should be between " + IntToString(0) + " and " + IntToString(65535) + ": "
  {
    BoundsPrint();
  }

  /** The fixed middle of the thread-count messages. */
  lemma OneMiddle()
    ensures " should be >= 1: " == " should be >= " + IntToString(1) + "" + ": "
  {
    BoundsPrint();
  }

  /** An `AtLeast` message is the name, a fixed middle and the value. */
  lemma AtLeastMessage(name: string, min: int, unit: string, v: int, middle: string)
    requires middle == " should be >= " + IntToString(min) + unit + ": "
    ensures BoundMessage(name, AtLeast(min, unit), v) == name + middle + IntToString(v)
  {
    assert BoundMessage(name, AtLeast(min, unit), v)
      == name + " should be >= " + IntToString(min) + unit + ": " + IntToString(v);
    SeqAssoc4(name, " should be >= ", IntToString(min), unit, ": ", IntToString(v));
  }

  /** A `Between` message is the name, a fixed middle and the value. */
  lemma BetweenMessage(name: string, low: int, high: int, v: int, middle: string)
    requires middle == " should be between " + IntToString(low) + " and " + IntToString(high) + ": "
    ensures BoundMessage(name, Between(low, high), v) == name + middle + IntToString(v)
  {
    var m := BoundMessage(name, Between(low, high), v);
    assert m == name + " should be between " + IntToString(low) + " and " + IntToString(high) + ": " + IntToString(v);
    SeqAssoc5(name, " should be between ", IntToString(low), " and ", IntToString(high), ": ", IntToString(v));
  }

  /** Regrouping a message's pieces around its fixed middle. */
  lemma SeqAssoc5(a: string, b: string, c: string, d: string, e: string, f: string, g: string)
    ensures a + b + c + d + e + f + g == a + (b + c + d + e + f) + g
  {
  }

  /** Regrouping a message's pieces around its fixed middle. */
  lemma SeqAssoc4(a: string, b: string, c: string, d: string, e: string, f: string)
    ensures a + b + c + d + e + f == a + (b + c + d + e) + f
  {
  }

  /** The port bounds print as "0" and "65535". */
  lemma PortBoundsPrint()
    ensures IntToString(0) == "0" && IntToString(65535) == "65535"
  {
    assert NatToString(0) == "0";
    assert NatToString(65535) == NatToString(6553) + "5";
    assert NatToString(6553) == NatToString(655) + "3";
    assert NatToString(655) == NatToString(65) + "5";
    assert NatToString(65) == NatToString(6) + "5";
  }

  /** The thread counts are checked independently: a max below the init count
      is accepted. */
  lemma MaxBelowInitAccepted(props: Properties)
    requires props == map[InitThreadCountProperty := "10", MaxThreadCountProperty := "2"]
    ensures InitThreadCount(props) == Success(10)
    ensures MaxThreadCount(props) == Success(2)
  {
    assert DigitsValue("10") == 10 by { assert "10"[..1] == "1"; }
  }

  /** The loaded properties used throughout the configuration tests. */
  function ValidProperties(): Properties {
    map[ServerPortProperty := "5555", InitThreadCountProperty := "1",
        MaxThreadCountProperty := "10", ClearDataIntervalProperty := "10000"]
  }

  /** Reading the test properties gives back their numbers, and an override of
      the port wins over the loaded value. */
  lemma ValidPropertiesRead()
    ensures ServerPort(ValidProperties()) == Success(5555)
    ensures InitThreadCount(ValidProperties()) == Success(1)
    ensures MaxThreadCount(ValidProperties()) == Success(10)
    ensures ClearDataInterval(ValidProperties()) == Success(10000)
    ensures ServerPort(MergeProperties(ValidProperties(), Some(map[ServerPortProperty := "10000"]))) == Success(10000)
  {
    assert DigitsValue("5555") == 5555 by {
      assert "5555"[..3] == "555" && "555"[..2] == "55" && "55"[..1] == "5";
    }
    assert DigitsValue("10") == 10 by { assert "10"[..1] == "1"; }
    assert DigitsValue("10000") == 10000 by {
      assert "10000"[..4] == "1000" && "1000"[..3] == "100" && "100"[..2] == "10" && "10"[..1] == "1";
    }
  }

  /** A non-numeric value fails with the "should be a number" message. */
  lemma NonNumericPortRejected()
    ensures ServerPort(map[ServerPortProperty := "kkk"]) ==
      Failure(ConfigError("jmemcached.server.port should be a number: kkk"))
  {
    assert !IsDigit("kkk"[0]);
    assert ParseInt("kkk").None?;
    assert ServerPortProperty + " should be a number: " + "kkk" == "jmemcached.server.port should be a number: kkk";
  }

  /** A missing value fails with the same message, naming the value "null". */
  lemma MissingPortRejected()
    ensures ServerPort(map[]) == Failure(ConfigError("jmemcached.server.port should be a number: null"))
  {
    assert ServerPortProperty + " should be a number: " + "null" == "jmemcached.server.port should be a number: null";
  }

  /** A clear-data interval below 1000 fails construction with the range
      message. */
  lemma ShortIntervalRejected()
    ensures NewServerConfig(ValidProperties(), Some(map[ClearDataIntervalProperty := "10"])) ==
      Failure(ConfigError("jmemcached.storage.clear.data.interval should be >= 1000 millis: 10"))
  {
    var props := MergeProperties(ValidProperties(), Some(map[ClearDataIntervalProperty := "10"]));
    assert props[ClearDataIntervalProperty] == "10";
    TenPrints();
    assert ClearDataInterval(props) == Failure(ConfigError(BoundMessage(ClearDataIntervalProperty, AtLeast(1000, " millis"), 10)));
    IntervalMessageOfTen();
  }

  /** "10" parses to 10 and 10 prints as "10". */
  lemma TenPrints()
    ensures ParseInt("10") == Some(10) && IntToString(10) == "10"
  {
    assert DigitsValue("10") == 10 by { assert "10"[..1] == "1"; }
    assert SignedDigits("10") == Some((false, "10"));
    assert NatToString(10) == NatToString(1) + [DigitChar(0)];
  }

  /** The interval message for the value 10, as the configuration test
      expects it. */
  lemma IntervalMessageOfTen()
    ensures BoundMessage(ClearDataIntervalProperty, AtLeast(1000, " millis"), 10)
      == "jmemcached.storage.clear.data.interval should be >= 1000 millis: 10"
  {
    var prefix := "jmemcached.storage.clear.data.interval should be >= 1000 millis: ";
    calc {
      BoundMessage(ClearDataIntervalProperty, AtLeast(1000, " millis"), 10);
    == { IntervalMessage(10); }
      ClearDataIntervalProperty + " should be >= 1000 millis: " + IntToString(10);
    == { TenPrints(); }
      ClearDataIntervalProperty + " should be >= 1000 millis: " + "10";
    == { assert ClearDataIntervalProperty + " should be >= 1000 millis: " == prefix; }
      prefix + "10";
    }
  }
}
