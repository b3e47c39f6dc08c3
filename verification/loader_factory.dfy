/**
 * Choosing the data loader factory for a channel: deprecated per-database
 * bulk loader names are normalised to "bulk", factories are looked up by
 * type name in the extension registry, and the "default" factory is the
 * fallback both for an unknown type and for one the platform cannot run.
 */
module LoaderFactory {
  import opened Common

  /** The registered type names that were replaced by the generic "bulk". */
  const DeprecatedBulkTypes: set<string> :=
    {"mysql_bulk", "mssql_bulk", "oracle_bulk", "postgres_bulk", "redshift_bulk"}

  /** filterDataLoaderType. */
  function FilterDataLoaderType(t: Option<string>): (r: Option<string>)
    ensures t.None? ==> r.None?
    ensures t.Some? && t.value in DeprecatedBulkTypes ==> r == Some("bulk")
    ensures t.Some? && t.value !in DeprecatedBulkTypes ==> r == t
  {
    if t.None? then t
    else if t.value == "mysql_bulk" || t.value == "mssql_bulk" || t.value == "oracle_bulk"
         || t.value == "postgres_bulk" || t.value == "redshift_bulk" then Some("bulk")
    else t
  }

  /** Normalising twice is normalising once: "bulk" is not deprecated. */
  lemma FilterIdempotent(t: Option<string>)
    ensures FilterDataLoaderType(FilterDataLoaderType(t)) == FilterDataLoaderType(t)
  {
    assert "bulk" !in DeprecatedBulkTypes;
  }

  /** A factory registered through the extension service: its type name and
      whether it supports the running database platform. */
  datatype Factory = Factory(typeName: string, platformSupported: bool)

  /** A channel as configured; its loader type may be null. */
  datatype Channel = Channel(channelId: string, dataLoaderType: Option<string>)

  /** getDataLoaderFactories: registered factories keyed by type name; a
      later registration under the same name replaces an earlier one. */
  function FactoriesByType(registered: seq<Factory>): map<string, bool>
    decreases |registered|
  {
    if |registered| == 0 then map[]
    else
      var last := registered[|registered| - 1];
      FactoriesByType(registered[..|registered| - 1])[last.typeName := last.platformSupported]
  }

  /** Every registered type name is a key, every key is a registered type
      name, and its entry is the last registration under that name. */
  lemma {:induction false} FactoriesByTypeLastWins(registered: seq<Factory>)
    ensures forall i :: 0 <= i < |registered| ==> registered[i].typeName in FactoriesByType(registered)
    ensures forall t :: t in FactoriesByType(registered) ==>
      LastRegistered(registered, t, FactoriesByType(registered)[t])
    decreases |registered|
  {
    if |registered| > 0 {
      var last := registered[|registered| - 1];
      var prefix := registered[..|registered| - 1];
      FactoriesByTypeLastWins(prefix);
      var m := FactoriesByType(prefix);
      var r := FactoriesByType(registered);
      assert r == m[last.typeName := last.platformSupported];
      forall i | 0 <= i < |registered|
        ensures registered[i].typeName in r
      {
        if i < |prefix| { assert registered[i] == prefix[i]; }
      }
      assert LastRegistered(registered, last.typeName, last.platformSupported) by {
        assert registered[|registered| - 1] == last;
      }
      forall t | t in r
        ensures LastRegistered(registered, t, r[t])
      {
        if t != last.typeName {
          assert registered == prefix + [last];
          LastRegisteredExtends(prefix, last, t, m[t]);
        }
      }
    }
  }

  /** A later registration under another name leaves the last registration
      under `t` where it was. */
  lemma LastRegisteredExtends(prefix: seq<Factory>, x: Factory, t: string, supported: bool)
    requires LastRegistered(prefix, t, supported) && x.typeName != t
    ensures LastRegistered(prefix + [x], t, supported)
  {
    var i :| 0 <= i < |prefix| && prefix[i].typeName == t && prefix[i].platformSupported == supported
             && forall j :: i < j < |prefix| ==> prefix[j].typeName != t;
    var r := prefix + [x];
    assert r[i] == prefix[i];
    forall j | i < j < |r|
      ensures r[j].typeName != t
    {
      if j < |prefix| { assert r[j] == prefix[j]; }
    }
  }

  /** The last factory registered under `t` reports `supported`. */
  predicate LastRegistered(registered: seq<Factory>, t: string, supported: bool) {
    exists i :: 0 <= i < |registered| && registered[i].typeName == t
      && registered[i].platformSupported == supported
      && forall j :: i < j < |registered| ==> registered[j].typeName != t
  }

  /** The outcome of getFactory: a factory, or the two null paths of the
      source (a null factory returned, or a NullPointerException when no
      factory at all is found before the platform test). */
  datatype Choice = Chosen(typeName: string) | NullFactory | NullDereference

  /** The loader type a channel asks for: the normalised configured type, or
      "default" for an unknown channel. */
  function RequestedType(channel: Option<Channel>): Option<string> {
    if channel.Some? then FilterDataLoaderType(channel.value.dataLoaderType) else Some("default")
  }

  /** getFactory. */
  function GetFactory(channel: Option<Channel>, factories: map<string, bool>): (r: Choice)
    ensures r.Chosen? ==> r.typeName in factories
    ensures r.Chosen? && r.typeName != "default" ==>
      RequestedType(channel) == Some(r.typeName) && factories[r.typeName]
    ensures r.NullDereference? <==>
      "default" !in factories && (RequestedType(channel).None? || RequestedType(channel).value !in factories)
    ensures r.NullFactory? <==>
      "default" !in factories && RequestedType(channel).Some? && RequestedType(channel).value in factories
      && !factories[RequestedType(channel).value]
  {
    var t := RequestedType(channel);
    var first: Option<string> :=
      if t.Some? && t.value in factories then t
      else if "default" in factories then Some("default")
      else None;
    if first.None? then NullDereference
    else if factories[first.value] then Chosen(first.value)
    else if "default" in factories then Chosen("default")
    else NullFactory
  }

  /** With the default factory registered (the service registers it when it
      is constructed), the configured type is used exactly when it is
      registered and supports the platform; otherwise it is "default". */
  lemma GetFactoryFallback(channel: Option<Channel>, factories: map<string, bool>)
    requires "default" in factories
    ensures var t := RequestedType(channel);
      GetFactory(channel, factories)
        == if t.Some? && t.value in factories && factories[t.value] then Chosen(t.value)
           else Chosen("default")
  {
  }

  /** An unknown channel always gets the default factory. */
  lemma UnknownChannelGetsDefault(factories: map<string, bool>)
    requires "default" in factories
    ensures GetFactory(None, factories) == Chosen("default")
  {
  }

  /** Without a default factory, an unregistered type ends in a
      NullPointerException. */
  lemma NoDefaultUnknownType(channel: Option<Channel>, factories: map<string, bool>)
    requires "default" !in factories
    requires RequestedType(channel).None? || RequestedType(channel).value !in factories
    ensures GetFactory(channel, factories) == NullDereference
  {
  }

  /** Without a default factory, a registered type that does not support the
      platform falls back to the missing default: a null factory is returned. */
  lemma NoDefaultUnsupported(channel: Option<Channel>, factories: map<string, bool>)
    requires "default" !in factories
    requires RequestedType(channel).Some? && RequestedType(channel).value in factories
    requires !factories[RequestedType(channel).value]
    ensures GetFactory(channel, factories) == NullFactory
  {
  }
}
