/**
 * The options hash `SassTemplate#call` hands to the Sass engine.
 *
 * It is built in three steps: the options derived from the input (file name,
 * line comments, syntax, the environment's search paths, the importer and the
 * Sprockets objects); the configured options of `config_options` folded in
 * with `safe_merge`; and, when source maps are supported, three source-map
 * settings written over the result.  The Rails configuration and the Sprockets
 * version are explicit parameters here.
 */
module SassOptions {
  import opened RubyArray
  import opened RubyHash
  import opened OptionValues

  /** The importer class every compilation resolves `@import` through. */
  const IMPORTER_CLASS: Val := Atom(Obj("SassC::Rails::Importer"))

  /** `SassTemplate` compiles the indented syntax (`:sass`), `ScssTemplate` the `:scss` syntax. */
  datatype Syntax = Sass | Scss

  function SyntaxSymbol(syntax: Syntax): Scalar {
    match syntax
    case Sass => Sym("sass")
    case Scss => Sym("scss")
  }

  /**
   * The `config.sass` settings the adapter reads: `style` (nil, or the name of
   * a style as a string or symbol), `load_paths` (`None` when not set, else
   * any value: normally an array of paths, possibly `nil` or `false`), `line_comments` and `inline_source_maps`.
   */
  datatype SassConfig = SassConfig(
    style: Option<string>,
    loadPaths: Option<Val>,
    lineComments: Scalar,
    inlineSourceMaps: bool)

  /** Source maps are supported when `config.assets.debug` is set and the Sprockets version does not start with "3". */
  function SupportSourceMaps(assetsDebug: bool, sprocketsVersion: string): (r: bool)
    ensures r <==> assetsDebug && (sprocketsVersion == [] || sprocketsVersion[0] != '3')
  {
    assetsDebug && !("3" <= sprocketsVersion)
  }

  /** `sass_style`: the configured style as a symbol, `:expanded` when none is configured. */
  function SassStyle(config: SassConfig): (r: Scalar)
    ensures r.Sym?
    ensures config.style.Some? ==> r.name == config.style.value
    ensures config.style.None? ==> r.name == "expanded"
  {
    Sym(match config.style case Some(name) => name case None => "expanded")
  }

  /**
   * `load_paths`: the configured load paths, or `[]` when the setting is
   * missing, `nil` or `false` (Ruby's `||`).  The result is never falsy.
   */
  function ConfiguredLoadPaths(config: SassConfig): (r: Val)
    ensures Truthy(r)
    ensures config.loadPaths.Some? && Truthy(config.loadPaths.value) ==> r == config.loadPaths.value
    ensures config.loadPaths.None? || !Truthy(config.loadPaths.value) ==> r == Arr([])
  {
    match config.loadPaths
    case Some(v) => if Truthy(v) then v else Arr([])
    case None => Arr([])
  }

  /** The three settings that force self-contained source maps embedded in the output. */
  function InlineSourceMapOptions(): seq<(Key, Val)> {
    [(SourceMapFile, Atom(Str("."))),
     (SourceMapEmbed, Atom(Bool(true))),
     (SourceMapContents, Atom(Bool(true)))]
  }

  /** What `config_options` returns, entry by entry. */
  function ConfigHash(config: SassConfig): (h: seq<(Key, Val)>)
    ensures KeysOf(h) == [Style, LoadPaths]
              + (if config.inlineSourceMaps then [SourceMapFile, SourceMapEmbed, SourceMapContents] else [])
  {
    [(Style, Atom(SassStyle(config))), (LoadPaths, ConfiguredLoadPaths(config))]
      + (if config.inlineSourceMaps then InlineSourceMapOptions() else [])
  }

  /**
   * `config_options`: style and load paths, with the inline source-map
   * settings merged in place when `config.sass.inline_source_maps` is set.
   */
  method ConfigOptions(config: SassConfig) returns (opts: seq<(Key, Val)>)
    ensures opts == ConfigHash(config)
    ensures UniqueKeys(opts)
  {
    opts := [(Style, Atom(SassStyle(config))), (LoadPaths, ConfiguredLoadPaths(config))];
    if config.inlineSourceMaps {
      assert Merge(opts, InlineSourceMapOptions()) == ConfigHash(config) by {
        assert KeysOf(opts) == [Style, LoadPaths];
        assert KeysOf(InlineSourceMapOptions()) == [SourceMapFile, SourceMapEmbed, SourceMapContents];
        MergeDisjoint(opts, InlineSourceMapOptions());
      }
      opts := Merge(opts, InlineSourceMapOptions());
    }
    assert UniqueKeys(opts) by {
      ConfigHashEntries(config);
    }
  }

  /** The search paths of the environment, as option values. */
  function PathValues(paths: seq<string>): seq<Val> {
    seq(|paths|, i requires 0 <= i < |paths| => Atom(Str(paths[i])))
  }

  /**
   * The options derived from the input before the configuration is merged in.
   * `sprockets` is the hash of the per-call Sprockets objects (context,
   * environment, dependency paths), passed through untouched.
   */
  function BaseOptions(filename: string, environmentPaths: seq<string>, config: SassConfig,
                       syntax: Syntax, sprockets: Val): (base: seq<(Key, Val)>)
    ensures KeysOf(base) == [Filename, LineComments, Syntax, LoadPaths, Importer, Sprockets]
  {
    [(Filename, Atom(Str(filename))),
     (LineComments, Atom(config.lineComments)),
     (Syntax, Atom(SyntaxSymbol(syntax))),
     (LoadPaths, Arr(PathValues(environmentPaths))),
     (Importer, IMPORTER_CLASS),
     (Sprockets, sprockets)]
  }

  /** The settings written over the options when source maps are supported. */
  function SourceMapOptions(filename: string): (settings: seq<(Key, Val)>)
    ensures KeysOf(settings) == [SourceMapContents, SourceMapFile, OmitSourceMapUrl]
  {
    [(SourceMapContents, Atom(Bool(false))),
     (SourceMapFile, Atom(Str(filename + ".map"))),
     (OmitSourceMapUrl, Atom(Bool(true)))]
  }


  /** The six keys of the input-derived options are different symbols. */
  lemma InputKeysDistinct()
    ensures Distinct([Filename, LineComments, Syntax, LoadPaths, Importer, Sprockets])
  {
  }

  /** The keys of the input-derived options, and what each of them holds. */
  lemma BaseOptionsEntries(filename: string, environmentPaths: seq<string>, config: SassConfig,
                           syntax: Syntax, sprockets: Val)
    ensures var base := BaseOptions(filename, environmentPaths, config, syntax, sprockets);
            && KeysOf(base) == [Filename, LineComments, Syntax, LoadPaths, Importer, Sprockets]
            && UniqueKeys(base)
            && Lookup(base, Filename) == Some(Atom(Str(filename)))
            && Lookup(base, LineComments) == Some(Atom(config.lineComments))
            && Lookup(base, Syntax) == Some(Atom(SyntaxSymbol(syntax)))
            && Lookup(base, LoadPaths) == Some(Arr(PathValues(environmentPaths)))
            && Lookup(base, Importer) == Some(IMPORTER_CLASS)
            && Lookup(base, Sprockets) == Some(sprockets)
  {
    var h := [(Filename, Atom(Str(filename))),
              (LineComments, Atom(config.lineComments)),
              (Syntax, Atom(SyntaxSymbol(syntax))),
              (LoadPaths, Arr(PathValues(environmentPaths))),
              (Importer, IMPORTER_CLASS),
              (Sprockets, sprockets)];
    assert BaseOptions(filename, environmentPaths, config, syntax, sprockets) == h;
    assert KeysOf(h) == [Filename, LineComments, Syntax, LoadPaths, Importer, Sprockets];
    assert UniqueKeys(h) by {
      InputKeysDistinct();
    }
    LookupEntry(h, 0);
    LookupEntry(h, 1);
    LookupEntry(h, 2);
    LookupEntry(h, 3);
    LookupEntry(h, 4);
    LookupEntry(h, 5);
  }

  /**
   * What `config_options` sets in every configuration: the style and the load
   * paths, no key twice, and no key besides those and the inline source-map
   * settings.
   */
  lemma ConfigHashEntries(config: SassConfig)
    ensures var configured := ConfigHash(config);
            && UniqueKeys(configured)
            && Lookup(configured, Style) == Some(Atom(SassStyle(config)))
            && Lookup(configured, LoadPaths) == Some(ConfiguredLoadPaths(config))
            && (forall k :: k in KeysOf(configured) ==>
                  k in [Style, LoadPaths, SourceMapFile, SourceMapEmbed, SourceMapContents])
  {
    if config.inlineSourceMaps {
      InlineConfigHashEntries(config);
    } else {
      PlainConfigHashEntries(config);
    }
  }

  /** The keys `config_options` can set are different symbols. */
  lemma ConfigKeysDistinct()
    ensures Distinct([Style, LoadPaths, SourceMapFile, SourceMapEmbed, SourceMapContents])
  {
  }

  /** With inline source maps, `config_options` also sets the file marker ".", embedding and contents. */
  lemma InlineConfigHashEntries(config: SassConfig)
    requires config.inlineSourceMaps
    ensures var configured := ConfigHash(config);
            && KeysOf(configured) == [Style, LoadPaths, SourceMapFile, SourceMapEmbed, SourceMapContents]
            && UniqueKeys(configured)
            && Lookup(configured, Style) == Some(Atom(SassStyle(config)))
            && Lookup(configured, LoadPaths) == Some(ConfiguredLoadPaths(config))
            && Lookup(configured, SourceMapFile) == Some(Atom(Str(".")))
            && Lookup(configured, SourceMapEmbed) == Some(Atom(Bool(true)))
            && Lookup(configured, SourceMapContents) == Some(Atom(Bool(true)))
  {
    var h := [(Style, Atom(SassStyle(config))), (LoadPaths, ConfiguredLoadPaths(config)),
              (SourceMapFile, Atom(Str("."))), (SourceMapEmbed, Atom(Bool(true))),
              (SourceMapContents, Atom(Bool(true)))];
    assert ConfigHash(config) == h;
    assert KeysOf(h) == [Style, LoadPaths, SourceMapFile, SourceMapEmbed, SourceMapContents];
    assert UniqueKeys(h) by {
      ConfigKeysDistinct();
    }
    LookupEntry(h, 0);
    LookupEntry(h, 1);
    LookupEntry(h, 2);
    LookupEntry(h, 3);
    LookupEntry(h, 4);
  }

  /** Without inline source maps, `config_options` sets only the style and the load paths. */
  lemma PlainConfigHashEntries(config: SassConfig)
    requires !config.inlineSourceMaps
    ensures var configured := ConfigHash(config);
            && KeysOf(configured) == [Style, LoadPaths]
            && UniqueKeys(configured)
            && Lookup(configured, Style) == Some(Atom(SassStyle(config)))
            && Lookup(configured, LoadPaths) == Some(ConfiguredLoadPaths(config))
            && Lookup(configured, SourceMapFile) == None
            && Lookup(configured, SourceMapEmbed) == None
            && Lookup(configured, SourceMapContents) == None
  {
    var h := [(Style, Atom(SassStyle(config))), (LoadPaths, ConfiguredLoadPaths(config))];
    assert ConfigHash(config) == h;
    assert KeysOf(h) == [Style, LoadPaths];
    assert Distinct(KeysOf(h));
    LookupEntry(h, 0);
    LookupEntry(h, 1);
  }

  /** The three source-map settings are different symbols. */
  lemma SourceMapKeysDistinct()
    ensures Distinct([SourceMapContents, SourceMapFile, OmitSourceMapUrl])
  {
  }

  /** The keys of the source-map settings, and what each of them holds. */
  lemma SourceMapOptionsEntries(filename: string)
    ensures var settings := SourceMapOptions(filename);
            && KeysOf(settings) == [SourceMapContents, SourceMapFile, OmitSourceMapUrl]
            && UniqueKeys(settings)
            && Lookup(settings, SourceMapContents) == Some(Atom(Bool(false)))
            && Lookup(settings, SourceMapFile) == Some(Atom(Str(filename + ".map")))
            && Lookup(settings, OmitSourceMapUrl) == Some(Atom(Bool(true)))
  {
    var settings := SourceMapOptions(filename);
    var keys := [SourceMapContents, SourceMapFile, OmitSourceMapUrl];
    assert KeysOf(settings) == keys;
    assert UniqueKeys(settings) by {
      SourceMapKeysDistinct();
    }
    assert Lookup(settings, SourceMapContents) == Some(Atom(Bool(false))) by { LookupEntry(settings, 0); }
    assert Lookup(settings, SourceMapFile) == Some(Atom(Str(filename + ".map"))) by { LookupEntry(settings, 1); }
    assert Lookup(settings, OmitSourceMapUrl) == Some(Atom(Bool(true))) by { LookupEntry(settings, 2); }
  }

  /** The options before the source-map settings: the input-derived options with the configured ones merged in. */
  function MergedOptions(filename: string, environmentPaths: seq<string>, config: SassConfig,
                         syntax: Syntax, sprockets: Val): (merged: seq<(Key, Val)>)
    ensures 6 <= |merged| <= 6 + |ConfigHash(config)|
  {
    SafeMergeEntries(BaseOptions(filename, environmentPaths, config, syntax, sprockets), ConfigHash(config))
  }

  /** The options hash `call` passes to the engine. */
  function EngineOptions(filename: string, environmentPaths: seq<string>, config: SassConfig,
                         syntax: Syntax, sprockets: Val, supportSourceMaps: bool): (opts: seq<(Key, Val)>)
    ensures var merged := MergedOptions(filename, environmentPaths, config, syntax, sprockets);
            |merged| <= |opts| <= |merged| + (if supportSourceMaps then 3 else 0)
  {
    var merged := MergedOptions(filename, environmentPaths, config, syntax, sprockets);
    if supportSourceMaps then Merge(merged, SourceMapOptions(filename)) else merged
  }

  /** Keys outside the source-map settings are not touched by them. */
  lemma EngineOptionsOutsideSourceMapKeys(filename: string, environmentPaths: seq<string>, config: SassConfig,
                                          syntax: Syntax, sprockets: Val, supportSourceMaps: bool, k: Key)
    requires supportSourceMaps ==> k !in [SourceMapContents, SourceMapFile, OmitSourceMapUrl]
    ensures Lookup(EngineOptions(filename, environmentPaths, config, syntax, sprockets, supportSourceMaps), k)
         == Lookup(MergedOptions(filename, environmentPaths, config, syntax, sprockets), k)
  {
    if supportSourceMaps {
      SourceMapOptionsEntries(filename);
      MergeLookup(MergedOptions(filename, environmentPaths, config, syntax, sprockets), SourceMapOptions(filename), k);
    }
  }

  /**
   * The effective load paths are the environment's search paths followed by
   * the configured ones, without repetitions; a missing, `nil` or `false`
   * setting counts as `[]`.  Any other configured value that is not an array
   * replaces the search paths.
   */
  lemma EngineOptionsLoadPaths(filename: string, environmentPaths: seq<string>, config: SassConfig,
                               syntax: Syntax, sprockets: Val, supportSourceMaps: bool)
    ensures Lookup(EngineOptions(filename, environmentPaths, config, syntax, sprockets, supportSourceMaps), LoadPaths)
         == if config.loadPaths.None? || !Truthy(config.loadPaths.value) then
              Some(Arr(Uniq(PathValues(environmentPaths))))
            else
              match config.loadPaths.value
              case Arr(extra) => Some(Arr(Uniq(PathValues(environmentPaths) + extra)))
              case other => Some(other)
  {
    var base := BaseOptions(filename, environmentPaths, config, syntax, sprockets);
    var configured := ConfigHash(config);
    var paths := Arr(PathValues(environmentPaths));
    EngineOptionsOutsideSourceMapKeys(filename, environmentPaths, config, syntax, sprockets, supportSourceMaps, LoadPaths);
    assert Lookup(MergedOptions(filename, environmentPaths, config, syntax, sprockets), LoadPaths)
        == Some(SafeMerge(paths, ConfiguredLoadPaths(config))) by {
      BaseOptionsEntries(filename, environmentPaths, config, syntax, sprockets);
      ConfigHashEntries(config);
      SafeMergeEntriesLookup(base, configured, LoadPaths);
    }
    if config.loadPaths.None? || !Truthy(config.loadPaths.value) {
      assert PathValues(environmentPaths) + [] == PathValues(environmentPaths);
    }
  }

  /** The style is always set: the configured style as a symbol, or `:expanded`. */
  lemma EngineOptionsStyle(filename: string, environmentPaths: seq<string>, config: SassConfig,
                           syntax: Syntax, sprockets: Val, supportSourceMaps: bool)
    ensures Lookup(EngineOptions(filename, environmentPaths, config, syntax, sprockets, supportSourceMaps), Style)
         == Some(Atom(Sym(if config.style.Some? then config.style.value else "expanded")))
  {
    var base := BaseOptions(filename, environmentPaths, config, syntax, sprockets);
    var configured := ConfigHash(config);
    EngineOptionsOutsideSourceMapKeys(filename, environmentPaths, config, syntax, sprockets, supportSourceMaps, Style);
    assert Lookup(SafeMergeEntries(base, configured), Style) == Lookup(configured, Style) by {
      assert Style !in KeysOf(base);
      SafeMergeEntriesLookup(base, configured, Style);
    }
    assert Lookup(configured, Style) == Some(Atom(SassStyle(config))) by {
      ConfigHashEntries(config);
    }
  }

  /** A key the input-derived options set and the configuration does not keeps its input-derived value. */
  lemma EngineOptionsInputKey(filename: string, environmentPaths: seq<string>, config: SassConfig,
                              syntax: Syntax, sprockets: Val, supportSourceMaps: bool, k: Key)
    requires k in [Filename, LineComments, Syntax, Importer, Sprockets]
    ensures Lookup(EngineOptions(filename, environmentPaths, config, syntax, sprockets, supportSourceMaps), k)
         == Lookup(BaseOptions(filename, environmentPaths, config, syntax, sprockets), k)
  {
    var base := BaseOptions(filename, environmentPaths, config, syntax, sprockets);
    var configured := ConfigHash(config);
    EngineOptionsOutsideSourceMapKeys(filename, environmentPaths, config, syntax, sprockets, supportSourceMaps, k);
    assert k in KeysOf(base);
    assert k !in KeysOf(configured) by {
      InputKeysNotConfigured(k);
      ConfigHashEntries(config);
    }
    assert Lookup(SafeMergeEntries(base, configured), k) == Lookup(base, k) by {
      SafeMergeEntriesLookup(base, configured, k);
    }
  }

  /** None of the keys only the input sets is one `config_options` can set. */
  lemma InputKeysNotConfigured(k: Key)
    requires k in [Filename, LineComments, Syntax, Importer, Sprockets]
    ensures k !in [Style, LoadPaths, SourceMapFile, SourceMapEmbed, SourceMapContents]
  {
  }

  /**
   * The options derived from the input are never changed by the configuration
   * or the source-map settings.
   */
  lemma EngineOptionsFixedKeys(filename: string, environmentPaths: seq<string>, config: SassConfig,
                               syntax: Syntax, sprockets: Val, supportSourceMaps: bool)
    ensures var opts := EngineOptions(filename, environmentPaths, config, syntax, sprockets, supportSourceMaps);
            && Lookup(opts, Filename) == Some(Atom(Str(filename)))
            && Lookup(opts, LineComments) == Some(Atom(config.lineComments))
            && Lookup(opts, Syntax) == Some(Atom(SyntaxSymbol(syntax)))
            && Lookup(opts, Importer) == Some(IMPORTER_CLASS)
            && Lookup(opts, Sprockets) == Some(sprockets)
  {
    BaseOptionsEntries(filename, environmentPaths, config, syntax, sprockets);
    EngineOptionsInputKey(filename, environmentPaths, config, syntax, sprockets, supportSourceMaps, Filename);
    EngineOptionsInputKey(filename, environmentPaths, config, syntax, sprockets, supportSourceMaps, LineComments);
    EngineOptionsInputKey(filename, environmentPaths, config, syntax, sprockets, supportSourceMaps, Syntax);
    EngineOptionsInputKey(filename, environmentPaths, config, syntax, sprockets, supportSourceMaps, Importer);
    EngineOptionsInputKey(filename, environmentPaths, config, syntax, sprockets, supportSourceMaps, Sprockets);
  }

  /** A source-map key before the source-map settings: whatever `config_options` set, if anything. */
  lemma MergedOptionsSourceMapKey(filename: string, environmentPaths: seq<string>, config: SassConfig,
                                  syntax: Syntax, sprockets: Val, k: Key)
    requires k in [SourceMapFile, SourceMapEmbed, SourceMapContents, OmitSourceMapUrl]
    ensures Lookup(MergedOptions(filename, environmentPaths, config, syntax, sprockets), k)
         == Lookup(ConfigHash(config), k)
  {
    var base := BaseOptions(filename, environmentPaths, config, syntax, sprockets);
    var configured := ConfigHash(config);
    assert MergedOptions(filename, environmentPaths, config, syntax, sprockets) == SafeMergeEntries(base, configured);
    assert Lookup(SafeMergeEntries(base, configured), k) == Lookup(configured, k) by {
      assert k !in KeysOf(base) by {
        SourceMapKeyNotInput(k);
      }
      SafeMergeEntriesLookup(base, configured, k);
    }
  }

  /** No source-map key is one the input-derived options set. */
  lemma SourceMapKeyNotInput(k: Key)
    requires k in [SourceMapFile, SourceMapEmbed, SourceMapContents, OmitSourceMapUrl]
    ensures k !in [Filename, LineComments, Syntax, LoadPaths, Importer, Sprockets]
  {
  }


  /** The source-map keys `config_options` sets: the inline settings when configured, and never `omit_source_map_url`. */
  lemma ConfigHashSourceMapKeys(config: SassConfig)
    ensures var configured := ConfigHash(config);
            && Lookup(configured, SourceMapFile) == (if config.inlineSourceMaps then Some(Atom(Str("."))) else None)
            && Lookup(configured, SourceMapEmbed) == (if config.inlineSourceMaps then Some(Atom(Bool(true))) else None)
            && Lookup(configured, SourceMapContents) == (if config.inlineSourceMaps then Some(Atom(Bool(true))) else None)
            && Lookup(configured, OmitSourceMapUrl) == None
  {
    assert Lookup(ConfigHash(config), OmitSourceMapUrl) == None by {
      ConfigHashEntries(config);
    }
    if config.inlineSourceMaps {
      InlineConfigHashEntries(config);
    } else {
      PlainConfigHashEntries(config);
    }
  }

  /**
   * Without source-map support, inline source maps set the file marker ".",
   * embedding and contents, and nothing sets `omit_source_map_url`; without
   * inline source maps either, no source-map key is set at all.
   */
  lemma EngineOptionsInlineSourceMaps(filename: string, environmentPaths: seq<string>, config: SassConfig,
                                      syntax: Syntax, sprockets: Val)
    ensures var opts := EngineOptions(filename, environmentPaths, config, syntax, sprockets, false);
            && Lookup(opts, SourceMapFile) == (if config.inlineSourceMaps then Some(Atom(Str("."))) else None)
            && Lookup(opts, SourceMapEmbed) == (if config.inlineSourceMaps then Some(Atom(Bool(true))) else None)
            && Lookup(opts, SourceMapContents) == (if config.inlineSourceMaps then Some(Atom(Bool(true))) else None)
            && Lookup(opts, OmitSourceMapUrl) == None
  {
    var configured := ConfigHash(config);
    var opts := EngineOptions(filename, environmentPaths, config, syntax, sprockets, false);
    assert opts == MergedOptions(filename, environmentPaths, config, syntax, sprockets);
    assert Lookup(opts, SourceMapFile) == Lookup(configured, SourceMapFile) by {
      MergedOptionsSourceMapKey(filename, environmentPaths, config, syntax, sprockets, SourceMapFile);
    }
    assert Lookup(opts, SourceMapEmbed) == Lookup(configured, SourceMapEmbed) by {
      MergedOptionsSourceMapKey(filename, environmentPaths, config, syntax, sprockets, SourceMapEmbed);
    }
    assert Lookup(opts, SourceMapContents) == Lookup(configured, SourceMapContents) by {
      MergedOptionsSourceMapKey(filename, environmentPaths, config, syntax, sprockets, SourceMapContents);
    }
    assert Lookup(opts, OmitSourceMapUrl) == Lookup(configured, OmitSourceMapUrl) by {
      MergedOptionsSourceMapKey(filename, environmentPaths, config, syntax, sprockets, OmitSourceMapUrl);
    }
    ConfigHashSourceMapKeys(config);
  }

  /**
   * With source-map support, the map contents are not embedded, the map file is
   * the source file name plus ".map" and the map URL comment is omitted,
   * whatever the inline source-map settings said; only their embedding flag
   * survives.
   */
  lemma EngineOptionsSourceMapSupport(filename: string, environmentPaths: seq<string>, config: SassConfig,
                                      syntax: Syntax, sprockets: Val)
    ensures var opts := EngineOptions(filename, environmentPaths, config, syntax, sprockets, true);
            && Lookup(opts, SourceMapContents) == Some(Atom(Bool(false)))
            && Lookup(opts, SourceMapFile) == Some(Atom(Str(filename + ".map")))
            && Lookup(opts, OmitSourceMapUrl) == Some(Atom(Bool(true)))
            && Lookup(opts, SourceMapEmbed) == (if config.inlineSourceMaps then Some(Atom(Bool(true))) else None)
  {
    var merged := MergedOptions(filename, environmentPaths, config, syntax, sprockets);
    assert EngineOptions(filename, environmentPaths, config, syntax, sprockets, true)
        == Merge(merged, SourceMapOptions(filename));
    SourceMapSettingsOverride(merged, filename);
    assert Lookup(merged, SourceMapEmbed) == Lookup(ConfigHash(config), SourceMapEmbed) by {
      MergedOptionsSourceMapKey(filename, environmentPaths, config, syntax, sprockets, SourceMapEmbed);
    }
    ConfigHashSourceMapKeys(config);
  }

  /** Merging the source-map settings into any options sets those three keys and leaves the embedding flag alone. */
  lemma SourceMapSettingsOverride(opts: seq<(Key, Val)>, filename: string)
    ensures var merged := Merge(opts, SourceMapOptions(filename));
            && Lookup(merged, SourceMapContents) == Some(Atom(Bool(false)))
            && Lookup(merged, SourceMapFile) == Some(Atom(Str(filename + ".map")))
            && Lookup(merged, OmitSourceMapUrl) == Some(Atom(Bool(true)))
            && Lookup(merged, SourceMapEmbed) == Lookup(opts, SourceMapEmbed)
  {
    var settings := SourceMapOptions(filename);
    SourceMapOptionsEntries(filename);
    MergeLookup(opts, settings, SourceMapContents);
    MergeLookup(opts, settings, SourceMapFile);
    MergeLookup(opts, settings, OmitSourceMapUrl);
    MergeLookup(opts, settings, SourceMapEmbed);
  }

  /** The configured entries whose keys the input-derived options do not set: `style` and the inline source-map settings. */
  lemma ConfigHashNewEntries(config: SassConfig, ks: seq<Key>)
    requires ks == [Filename, LineComments, Syntax, LoadPaths, Importer, Sprockets]
    ensures RightOnly(ConfigHash(config), ks)
         == [(Style, Atom(SassStyle(config)))] + (if config.inlineSourceMaps then InlineSourceMapOptions() else [])
  {
    var tail := if config.inlineSourceMaps then InlineSourceMapOptions() else [];
    assert forall k :: k in KeysOf(tail) ==> k !in ks by {
      if config.inlineSourceMaps {
        assert KeysOf(tail) == [SourceMapFile, SourceMapEmbed, SourceMapContents];
      }
    }
    RightOnlyDropSecond((Style, Atom(SassStyle(config))), (LoadPaths, ConfiguredLoadPaths(config)), tail, ks);
  }

  /** Before the source-map settings, the options list the input-derived keys, then `style`, then the inline source-map keys if any. */
  lemma MergedOptionsKeys(filename: string, environmentPaths: seq<string>, config: SassConfig,
                          syntax: Syntax, sprockets: Val)
    ensures KeysOf(MergedOptions(filename, environmentPaths, config, syntax, sprockets))
         == [Filename, LineComments, Syntax, LoadPaths, Importer, Sprockets, Style]
            + (if config.inlineSourceMaps then [SourceMapFile, SourceMapEmbed, SourceMapContents] else [])
  {
    var base := BaseOptions(filename, environmentPaths, config, syntax, sprockets);
    var merged := MergedOptions(filename, environmentPaths, config, syntax, sprockets);
    var baseKeys := [Filename, LineComments, Syntax, LoadPaths, Importer, Sprockets];
    var tail := if config.inlineSourceMaps then InlineSourceMapOptions() else [];
    var tailKeys := if config.inlineSourceMaps then [SourceMapFile, SourceMapEmbed, SourceMapContents] else [];
    var extra := [(Style, Atom(SassStyle(config)))] + tail;
    assert KeysOf(merged) == baseKeys + KeysOf(extra) by {
      assert KeysOf(base) == baseKeys;
      assert RightOnly(ConfigHash(config), baseKeys) == extra by {
        ConfigHashNewEntries(config, baseKeys);
      }
      SafeMergeEntriesKeysOf(base, ConfigHash(config), baseKeys, extra);
    }
    assert KeysOf(extra) == [Style] + tailKeys by {
      KeysOfAppend([(Style, Atom(SassStyle(config)))], tail);
    }
    assert baseKeys + ([Style] + tailKeys) == [Filename, LineComments, Syntax, LoadPaths, Importer, Sprockets, Style] + tailKeys;
  }

  /** The source-map settings a merge adds after the options listed by `MergedOptionsKeys`. */
  lemma SourceMapOptionsNewKeys(filename: string, inline: bool, ks: seq<Key>)
    requires ks == [Filename, LineComments, Syntax, LoadPaths, Importer, Sprockets, Style]
                   + (if inline then [SourceMapFile, SourceMapEmbed, SourceMapContents] else [])
    ensures KeysOf(RightOnly(SourceMapOptions(filename), ks))
         == if inline then [OmitSourceMapUrl] else [SourceMapContents, SourceMapFile, OmitSourceMapUrl]
  {
    var settings := SourceMapOptions(filename);
    if inline {
      assert SourceMapContents in ks && SourceMapFile in ks && OmitSourceMapUrl !in ks;
      assert settings[1..][1..][1..] == [];
      assert RightOnly(settings[1..][1..], ks) == [settings[2]];
      assert RightOnly(settings[1..], ks) == [settings[2]];
    } else {
      assert KeysOf(settings) == [SourceMapContents, SourceMapFile, OmitSourceMapUrl];
      RightOnlyAll(settings, ks);
    }
  }

  /**
   * The options hash has no key twice, and its keys come in this order: the
   * input-derived keys, `style`, the inline source-map keys when configured,
   * and then the source-map settings that were not already present.
   */
  lemma EngineOptionsKeys(filename: string, environmentPaths: seq<string>, config: SassConfig,
                          syntax: Syntax, sprockets: Val, supportSourceMaps: bool)
    ensures var opts := EngineOptions(filename, environmentPaths, config, syntax, sprockets, supportSourceMaps);
            && UniqueKeys(opts)
            && KeysOf(opts)
               == [Filename, LineComments, Syntax, LoadPaths, Importer, Sprockets, Style]
                  + (if config.inlineSourceMaps then [SourceMapFile, SourceMapEmbed, SourceMapContents] else [])
                  + (if !supportSourceMaps then []
                     else if config.inlineSourceMaps then [OmitSourceMapUrl]
                     else [SourceMapContents, SourceMapFile, OmitSourceMapUrl])
  {
    var base := BaseOptions(filename, environmentPaths, config, syntax, sprockets);
    var merged := MergedOptions(filename, environmentPaths, config, syntax, sprockets);
    var settings := SourceMapOptions(filename);
    var mergedKeys := [Filename, LineComments, Syntax, LoadPaths, Importer, Sprockets, Style]
                      + (if config.inlineSourceMaps then [SourceMapFile, SourceMapEmbed, SourceMapContents] else []);
    assert KeysOf(merged) == mergedKeys by {
      MergedOptionsKeys(filename, environmentPaths, config, syntax, sprockets);
    }
    assert UniqueKeys(merged) by {
      assert UniqueKeys(base) by {
        BaseOptionsEntries(filename, environmentPaths, config, syntax, sprockets);
      }
      assert UniqueKeys(ConfigHash(config)) by {
        ConfigHashEntries(config);
      }
      SafeMergeEntriesKeys(base, ConfigHash(config));
    }
    if supportSourceMaps {
      assert UniqueKeys(settings) by {
        SourceMapOptionsEntries(filename);
      }
      MergeKeys(merged, settings);
      SourceMapOptionsNewKeys(filename, config.inlineSourceMaps, mergedKeys);
    } else {
      assert mergedKeys + [] == mergedKeys;
    }
  }
}
