# sassc-rails option assembly, in Dafny

This project models the core of `SassC::Rails::SassTemplate`
(`lib/sassc/rails/template.rb`). That class is the Sprockets processor that
compiles Sass and SCSS assets with the libsass engine. The model covers:

- `safe_merge`, the recursive merge that folds the configured Sass options
  into the options derived from the input:
  - two hashes merge key by key;
  - two arrays concatenate and drop repeated elements;
  - anything else takes the right-hand value;
- `config_options`, `sass_style` and `load_paths`, which read `config.sass`;
- the options hash `call` builds: the input-derived options, the configured
  options merged in with `merge!`, and the three source-map settings merged
  over them when source maps are supported;
- the rest of `call`: a compile error propagates; without source-map support
  the metadata comes back with only the CSS added; otherwise either the
  prior map is kept (nothing rendered) or the new map is combined with the
  prior one and each engine dependency is added to the dependency set.

Modules, one per file:

| file | module | what |
|---|---|---|
| `ruby_array.dfy` | `RubyArray` | `Array#uniq`, and the left-to-right scan it agrees with |
| `ruby_hash.dfy` | `RubyHash` | an insertion-ordered Ruby `Hash`: keys, lookup, `merge`/`merge!` without a block |
| `safe_merge.dfy` | `OptionValues` | option values and `safe_merge` |
| `options.dfy` | `SassOptions` | `config_options`, `sass_style`, `load_paths`, the options hash of `call` |
| `template.dfy` | `SassTemplate` | `call`, with the processing context as a class |

Modelling choices:

- **Hashes.** A hash is the sequence of its entries in insertion order. A
  key is a symbol: the datatype `Key` has one constructor per option name
  the template sets, and `Name(s)` for any other symbol. `Lookup` returns the first entry with the
  key, so the lookup lemmas hold for any entry sequence. "No key twice" is a
  separate property (`UniqueKeys`), and the merges are proved to keep it.
- **Environment.** The Rails configuration and `Sprockets::VERSION` are
  explicit parameters:
  - `SassConfig` holds `style`, `load_paths`, `line_comments` and
    `inline_source_maps`;
  - `assetsDebug` and `sprocketsVersion` are parameters of `Call`.
- **External calls.** These become parameters or symbols:
  - the engine's outcome is the parameter `render`, applied to the input
    data and the options;
  - `build_file_digest_uri` is the parameter `fileDigestUri`;
  - `format_source_map` and `combine_source_maps` are the symbolic
    constructors `Formatted` and `Combined`. `Formatted(raw, input)` keeps
    the whole input, because `format_source_map` receives it.
- **Dependency set.** The context's dependency collection is the Sprockets
  `Set` that the context creates from the input's dependencies. A set ignores
  `<<` of an element it already holds. So the collection grows by exactly one
  entry per engine dependency when those URIs are new and distinct
  (`DependencyGrowth`). In general, every URI ends up in it exactly once, and
  what it held before stays in front, unchanged.
- **When source maps are supported.** The check at line 23 needs both
  `config.assets.debug` and a Sprockets version that does not start with
  "3". The code is followed here: `SupportSourceMaps` tests both.

## Model

| member | source | states |
|---|---|---|
| RubyArray.Uniq | lib/sassc/rails/template.rb:99 | `uniq` gives a sequence without repetitions holding exactly the elements of its argument, and no longer than it |
| RubyArray.KeepFirst | lib/sassc/rails/template.rb:99 | the first-occurrence scan keeps each element not already seen, exactly once |
| RubyArray.UniqIsScan | lib/sassc/rails/template.rb:99 | `uniq` keeps the first occurrence of every element, in order (it is the left-to-right scan) |
| RubyArray.UniqAppend | lib/sassc/rails/template.rb:99 | `(a + b).uniq` is `a.uniq` followed by the new elements of `b` in scan order |
| RubyArray.UniqOfDistinct | lib/sassc/rails/template.rb:99 | `uniq` leaves an array without repetitions unchanged |
| RubyArray.UniqIdempotent | lib/sassc/rails/template.rb:99 | `uniq` applied twice is `uniq` applied once |
| RubyArray.UniqAppendFresh | lib/sassc/rails/template.rb:58-60 | appending distinct elements that are all new adds exactly those elements, in order |
| RubyArray.UniqOfUniqPrefix | lib/sassc/rails/template.rb:58-60 | de-duplicating the front first does not change the outcome |
| RubyArray.UniqAppendSeen | lib/sassc/rails/template.rb:58-60 | appending elements already present changes nothing |
| RubyHash.Merge | lib/sassc/rails/template.rb:39-43 | `merge!` without a block removes no entry and adds at most one per right-hand entry; `MergeLookup` and `MergeKeys` state its values and key order |
| RubyHash.MergeLookup | lib/sassc/rails/template.rb:39-43 | after `merge!` without a block, the right-hand keys have the right-hand values and every other key keeps its value |
| RubyHash.MergeKeys | lib/sassc/rails/template.rb:39-43 | `merge!` keeps the existing keys in place and appends the new ones in order; no key occurs twice |
| RubyHash.MergeDisjoint | lib/sassc/rails/template.rb:73-77 | merging a hash that shares no key appends its entries |
| OptionValues.SafeMerge | lib/sassc/rails/template.rb:95-103 | two hashes give a hash, two arrays give an array, any other pair gives the right-hand value |
| OptionValues.MergedFrom | lib/sassc/rails/template.rb:97 | the left-hand entries keep their keys and their order in the merged hash |
| OptionValues.MergedFromLookup | lib/sassc/rails/template.rb:97 | a left-hand key maps to its value merged with the right-hand value for the key, when there is one |
| OptionValues.SafeMergeEntries | lib/sassc/rails/template.rb:97 | `left.merge(right) { safe_merge }` removes no entry and adds at most one per right-hand entry; `SafeMergeEntriesLookup` and `SafeMergeEntriesKeys` state its values and key order |
| OptionValues.SafeMergeEntriesLookup | lib/sassc/rails/template.rb:96-97 | a key only on the left keeps the left value, a key only on the right keeps the right value, a key on both sides maps to `safe_merge` of the two values |
| OptionValues.SafeMergeEntriesKeys | lib/sassc/rails/template.rb:96-97 | the merged hash has the left keys in order, then the keys only the right has; it has every key of either side and no key twice |
| OptionValues.SafeMergeArrays | lib/sassc/rails/template.rb:98-99 | merging two arrays gives their concatenation without repetitions: each element of either side exactly once, in order of first occurrence |
| OptionValues.SafeMergeArraysRepeat | lib/sassc/rails/template.rb:98-99 | merging the same array in again changes nothing |
| OptionValues.SafeMergeWellFormed | lib/sassc/rails/template.rb:95-103 | merging two values whose hashes have no repeated key gives such a value, at every depth |
| OptionValues.SafeMergeEntriesWellFormed | lib/sassc/rails/template.rb:96-97 | merging two hashes without repeated keys, whose values have none either, gives such a hash |
| OptionValues.MergedFromWellFormed | lib/sassc/rails/template.rb:97 | each value of the merged entries is well formed when both sides' values are |
| SassOptions.SupportSourceMaps | lib/sassc/rails/template.rb:23 | source maps are supported exactly when `config.assets.debug` is set and the Sprockets version is empty or its first character is not "3" |
| SassOptions.SassStyle | lib/sassc/rails/template.rb:83-85 | the style is always a symbol: the configured name, or `expanded` when none is configured |
| SassOptions.ConfiguredLoadPaths | lib/sassc/rails/template.rb:87-89 | `load_paths` is never falsy: the configured value when it is truthy, `[]` when the setting is missing, `nil` or `false` |
| SassOptions.ConfigHash | lib/sassc/rails/template.rb:68-81 | the keys of `config_options`: `style` and `load_paths`, then the inline source-map trio when configured; `ConfigHashEntries` states the values |
| SassOptions.ConfigOptions | lib/sassc/rails/template.rb:68-81 | `config_options` is `style` and `load_paths`, followed by the inline source-map trio when configured; no key twice |
| SassOptions.ConfigHashEntries | lib/sassc/rails/template.rb:68-81 | `config_options` always sets the style and the load paths, sets no key twice, and sets no key besides those and the three inline source-map keys |
| SassOptions.InlineConfigHashEntries | lib/sassc/rails/template.rb:69-77 | with inline source maps, the keys are style, load_paths, source_map_file, source_map_embed and source_map_contents, in that order, holding the style, the load paths, `"."`, `true` and `true` |
| SassOptions.PlainConfigHashEntries | lib/sassc/rails/template.rb:69-80 | without inline source maps, the keys are style and load_paths alone, holding the style and the load paths; no source-map key is set |
| SassOptions.ConfigHashSourceMapKeys | lib/sassc/rails/template.rb:68-81 | `config_options` sets source_map_file `"."`, source_map_embed `true` and source_map_contents `true` exactly when inline source maps are configured, and never sets omit_source_map_url |
| SassOptions.BaseOptions | lib/sassc/rails/template.rb:25-35 | the input-derived options have the keys filename, line_comments, syntax, load_paths, importer and sprockets, in that order; `BaseOptionsEntries` states the values |
| SassOptions.BaseOptionsEntries | lib/sassc/rails/template.rb:25-35 | each input-derived option's value: the file name, the line-comment setting, the syntax, the environment's paths, the importer class and the Sprockets hash |
| SassOptions.SourceMapOptions | lib/sassc/rails/template.rb:39-43 | the source-map settings have the keys source_map_contents, source_map_file and omit_source_map_url, in that order; `SourceMapOptionsEntries` states the values |
| SassOptions.MergedOptions | lib/sassc/rails/template.rb:25-36 | the options after `merge!` of `config_options` keep the six input-derived entries and gain at most one entry per configured one; `MergedOptionsKeys` gives the exact keys |
| SassOptions.EngineOptions | lib/sassc/rails/template.rb:25-44 | the source-map `merge!` removes no entry and adds at most three, and only when source maps are supported; `EngineOptionsKeys` gives the exact keys |
| SassOptions.SourceMapOptionsEntries | lib/sassc/rails/template.rb:39-43 | the source-map settings: contents false, file name plus ".map", map URL omitted |
| SassOptions.SourceMapSettingsOverride | lib/sassc/rails/template.rb:39-43 | `merge!` of the source-map settings into any options sets contents false, file name plus ".map" and map URL omitted, and leaves the embedding flag as it was |
| SassOptions.EngineOptionsOutsideSourceMapKeys | lib/sassc/rails/template.rb:38-44 | the source-map settings change no other key |
| SassOptions.EngineOptionsLoadPaths | lib/sassc/rails/template.rb:25-36 | the effective load paths are the environment's paths followed by the configured ones, without repetitions. A missing, `nil` or `false` setting counts as `[]`, as `load_paths` (lines 87-89) makes it. Any other configured value that is not an array replaces the paths |
| SassOptions.EngineOptionsStyle | lib/sassc/rails/template.rb:83-85 | `style` is always set: the configured style as a symbol, or `:expanded` |
| SassOptions.EngineOptionsInputKey | lib/sassc/rails/template.rb:25-36 | an input-derived key the configuration does not set keeps its input-derived value |
| SassOptions.EngineOptionsFixedKeys | lib/sassc/rails/template.rb:25-44 | filename, line_comments, syntax, importer and sprockets hold the input-derived values whatever the configuration and source-map support |
| SassOptions.MergedOptionsSourceMapKey | lib/sassc/rails/template.rb:72-77 | before the source-map settings, a source-map key holds what `config_options` set, if anything |
| SassOptions.EngineOptionsInlineSourceMaps | lib/sassc/rails/template.rb:72-77 | without source-map support, inline source maps set file ".", embed true and contents true, and no map-URL key is set; without inline source maps no source-map key is set at all |
| SassOptions.EngineOptionsSourceMapSupport | lib/sassc/rails/template.rb:38-44 | with support, contents false, file name plus ".map" and map URL omitted override the inline settings; only the embed flag of the inline settings survives |
| SassOptions.ConfigHashNewEntries | lib/sassc/rails/template.rb:36 | of the configured options, only `style` and the inline source-map settings are keys the input-derived options lack |
| SassOptions.MergedOptionsKeys | lib/sassc/rails/template.rb:25-36 | after the configuration merge, the keys are the input-derived ones, then `style`, then the inline source-map keys when configured |
| SassOptions.SourceMapOptionsNewKeys | lib/sassc/rails/template.rb:38-44 | the source-map settings add `omit_source_map_url` alone after inline settings, all three keys otherwise |
| SassOptions.EngineOptionsKeys | lib/sassc/rails/template.rb:25-44 | the final options have no key twice, and their exact key order for every combination of inline source maps and source-map support |
| SassTemplate.Context.constructor | lib/sassc/rails/template.rb:22 | the new context's dependency set holds the input's dependencies without repetitions |
| SassTemplate.Context.AddDependency | lib/sassc/rails/template.rb:59 | `<<` appends a URI the set lacks and leaves the set unchanged otherwise; the set never holds a URI twice |
| SassTemplate.Context.AddFileDependencies | lib/sassc/rails/template.rb:58-60 | after the loop, the set is the old set followed by the digest URIs of the files, without repetitions |
| SassTemplate.SprocketsHash | lib/sassc/rails/template.rb:31-35 | the `sprockets` option is a hash with the keys context, environment and dependencies |
| SassTemplate.SprocketsHashEntries | lib/sassc/rails/template.rb:31-35 | the `sprockets` option passes the environment and the context's dependency paths to the engine unchanged; no key twice |
| SassTemplate.DigestUris | lib/sassc/rails/template.rb:58-59 | one digest URI per dependency file, in order |
| SassTemplate.BuildOptions | lib/sassc/rails/template.rb:25-44 | the options built with `merge!` are the engine options; no key twice |
| SassTemplate.Call | lib/sassc/rails/template.rb:21-66 | The engine gets the assembled options. A compile error propagates. The engine here cannot add to the context (see "Left out"). Under that, without source-map support the returned dependency set is the input's set, with the CSS and no map. A `NotRendered` outcome keeps the prior map and that set. A rendered outcome combines the prior map with the new one and adds each engine dependency's digest URI |
| SassTemplate.DependencyGrowth | lib/sassc/rails/template.rb:58-60 | the prior set stays in front unchanged; the set then holds exactly the prior and new URIs, each once; distinct, new URIs add exactly one entry each, in order |
| SassTemplate.DependenciesAlreadyKnown | lib/sassc/rails/template.rb:58-60 | dependencies already in the set leave it unchanged |

## Left out

- `initialize` (lines 9-19) is not modelled: the cache version and cache key, and the `@functions` module built with `include` and `class_eval`. These are Ruby metaprogramming and string interpolation of version constants.
- The `Functions` module (`asset_path`, `asset_url`, `asset_data_url`, lines 107-127) is not modelled. Its behaviour is `URI.split` and the Sprockets context's asset resolution, neither of which is part of this model.
- `Sprockets::Utils.module_include` around `engine.render` is not modelled: it only changes which helper functions the engine sees.
- The libsass engine is not modelled. `render` stands for `engine.render` together with `engine.source_map` and `engine.dependencies`, and yields one of three outcomes:
  - `CompileError` when rendering raises;
  - `NotRendered` when `source_map` or `dependencies` raises `SassC::NotRenderedError`;
  - `Rendered` otherwise.
- A `NotRenderedError` raised by `dependencies` after the map was formatted gives the same result as `NotRendered`: the prior map, and no dependency added. The model does not distinguish the two.
- Errors raised by `JSON.parse`, `format_source_map` or `combine_source_maps` propagate in the source; the model has no outcome for them.
- The internals of `format_source_map`, `combine_source_maps` and `build_file_digest_uri` are not modelled. The first two are symbolic constructors; the digest URI is an uninterpreted function parameter.
- Rendering does not change the context in the model. In Sprockets, the importer (`SassC::Rails::Importer`, line 30) and the asset helpers the engine calls during `engine.render` (lines 48-50, 112, 124) can add dependencies and links to the context passed in the `sprockets` option. The model's `render` is a pure function of the data and the options. So the returned dependency set is only the input's set plus, with source maps, the digest URIs of the engine's dependencies.
- The context's metadata keys other than `dependencies` (`required`, `stubbed`, `links` and the like) are not modelled. The `sprockets` option's context, environment and `dependency_paths` entries are opaque values.
- `SassOptions.SassStyle`: the configured style is a name (string or symbol). `to_sym` on other kinds of values is not modelled.
- `OptionValues.SafeMerge`: array elements are compared with Dafny's structural equality. Ruby's `uniq` uses `hash`/`eql?`, which treat two hashes with the same entries in a different order as equal; the model treats them as different.
- `SassOptions.SupportSourceMaps`: `start_with?("3")` is modelled as the string "3" being a prefix of the version string; the version's format is not modelled.
