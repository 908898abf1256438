/** The bot's configuration: a JSON object read from `config.json`, of which
    seven keys are required. A configuration is modelled as a map from key to
    value; which values the keys hold does not matter to the completeness check. */
module Configuration {

  /** A JSON value as it appears in the configuration template. */
  datatype Value = Text(text: string) | Number(number: real)

  /** The keys of the configuration template, in their declaration order
      (the order in which missing keys are reported). */
  const TemplateKeys: seq<string> :=
    ["baseCurrency", "quoteCurrency", "centralPrice", "amountAsQuote",
     "upperLevelsCount", "downLevelsCount", "interLevelsDelta"]

  /** The configuration template, written out when no configuration exists. */
  const Template: map<string, Value> :=
    map["baseCurrency" := Text("BTCF0"),
        "quoteCurrency" := Text("USTF0"),
        "centralPrice" := Number(29000.0),
        "amountAsQuote" := Number(2.0),
        "upperLevelsCount" := Number(20.0),
        "downLevelsCount" := Number(20.0),
        "interLevelsDelta" := Number(200.0)]

  /** Every template key is present. */
  predicate IsComplete<V>(configuration: map<string, V>)
  {
    forall key :: key in TemplateKeys ==> key in configuration
  }

  /** The keys of `keys` from position `i` on that `configuration` lacks, in order. */
  function MissingFrom<V>(keys: seq<string>, i: nat, configuration: map<string, V>): seq<string>
    requires i <= |keys|
    decreases |keys| - i
  {
    if i == |keys| then []
    else (if keys[i] in configuration then [] else [keys[i]]) + MissingFrom(keys, i + 1, configuration)
  }

  /** The keys of `keys` that `configuration` lacks, in order. */
  function Missing<V>(keys: seq<string>, configuration: map<string, V>): seq<string>
  {
    MissingFrom(keys, 0, configuration)
  }

  /** The template keys reported as missing, in template order. */
  function MissingKeys<V>(configuration: map<string, V>): seq<string>
  {
    Missing(TemplateKeys, configuration)
  }

  /** The `forEach` over the template keys: reports each key of `keys` the
      configuration lacks and clears `result` as soon as one is missing. */
  method CheckKeys<V>(keys: seq<string>, configuration: map<string, V>) returns (result: bool, reported: seq<string>)
    ensures result <==> forall key :: key in keys ==> key in configuration
    ensures reported == Missing(keys, configuration)
  {
    result := true;
    reported := [];
    var i := 0;
    while i < |keys|
      invariant 0 <= i <= |keys|
      invariant result <==> reported == []
      invariant reported + MissingFrom(keys, i, configuration) == Missing(keys, configuration)
    {
      var key := keys[i];
      if key !in configuration {
        assert (reported + [key]) + MissingFrom(keys, i + 1, configuration)
            == reported + ([key] + MissingFrom(keys, i + 1, configuration));
        reported := reported + [key];
        result := false;
      }
      i := i + 1;
    }
    MissingMeaning(keys, configuration);
    MissingEmpty(keys, configuration);
  }

  /** `completedConfiguration`: true exactly when every template key is present;
      the keys it reports missing are returned in template order. */
  method CompletedConfiguration<V>(configuration: map<string, V>) returns (result: bool, reported: seq<string>)
    ensures result <==> IsComplete(configuration)
    ensures reported == MissingKeys(configuration)
    ensures forall key :: key in reported <==> key in TemplateKeys && key !in configuration
  {
    result, reported := CheckKeys(TemplateKeys, configuration);
    MissingMeaning(TemplateKeys, configuration);
  }

  /** A key is reported exactly when it is one of `keys[i..]` and absent. */
  lemma {:induction false} MissingFromMeaning<V>(keys: seq<string>, i: nat, configuration: map<string, V>)
    requires i <= |keys|
    ensures forall key :: key in MissingFrom(keys, i, configuration) <==> key in keys[i..] && key !in configuration
    decreases |keys| - i
  {
    if i < |keys| {
      MissingFromMeaning(keys, i + 1, configuration);
      assert keys[i..] == [keys[i]] + keys[i + 1..];
    }
  }

  lemma MissingMeaning<V>(keys: seq<string>, configuration: map<string, V>)
    ensures forall key :: key in Missing(keys, configuration) <==> key in keys && key !in configuration
  {
    MissingFromMeaning(keys, 0, configuration);
    assert keys[0..] == keys;
  }

  /** Nothing is reported exactly when every key is present. */
  lemma MissingEmpty<V>(keys: seq<string>, configuration: map<string, V>)
    ensures Missing(keys, configuration) == [] <==> forall key :: key in keys ==> key in configuration
  {
    MissingMeaning(keys, configuration);
    if Missing(keys, configuration) != [] {
      assert Missing(keys, configuration)[0] in Missing(keys, configuration);
    }
  }

  /** The check passes exactly when nothing is reported missing, and a key is
      reported exactly when it is a template key the configuration lacks. */
  lemma MissingKeysMeaning<V>(configuration: map<string, V>)
    ensures forall key :: key in MissingKeys(configuration) <==> key in TemplateKeys && key !in configuration
    ensures IsComplete(configuration) <==> MissingKeys(configuration) == []
  {
    MissingMeaning(TemplateKeys, configuration);
    MissingEmpty(TemplateKeys, configuration);
  }

  /** Keys outside `keys` change neither the verdict nor the report. */
  lemma {:induction false} ExtraKeysIgnoredFrom<V>(keys: seq<string>, i: nat, configuration: map<string, V>, extra: map<string, V>)
    requires i <= |keys|
    requires forall key :: key in extra ==> key !in keys
    ensures MissingFrom(keys, i, configuration + extra) == MissingFrom(keys, i, configuration)
    decreases |keys| - i
  {
    if i < |keys| {
      ExtraKeysIgnoredFrom(keys, i + 1, configuration, extra);
    }
  }

  /** The completeness check, applied to a configuration extended with
      non-template keys, is unchanged. */
  lemma ExtraTemplateKeysIgnored<V>(configuration: map<string, V>, extra: map<string, V>)
    requires forall key :: key in extra ==> key !in TemplateKeys
    ensures MissingKeys(configuration + extra) == MissingKeys(configuration)
    ensures IsComplete(configuration + extra) <==> IsComplete(configuration)
  {
    ExtraKeysIgnoredFrom(TemplateKeys, 0, configuration, extra);
    MissingKeysMeaning(configuration);
    MissingKeysMeaning(configuration + extra);
  }

  /** The template written by the bot passes its own check. */
  lemma TemplateIsComplete()
    ensures IsComplete(Template)
    ensures MissingKeys(Template) == []
  {
    MissingKeysMeaning(Template);
  }
}
