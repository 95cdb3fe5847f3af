/**
 * `SassTemplate#call`: build the options, run the engine, and assemble the
 * metadata Sprockets keeps for the compiled asset.
 *
 * The Sass engine, `format_source_map`, `combine_source_maps` and
 * `build_file_digest_uri` are not modelled: the engine's outcome is the value
 * of the parameter `render` on the input data and the options, the two
 * source-map utilities are the symbolic constructors of `SourceMap`, and the
 * digest URI of a file is the value of the parameter `fileDigestUri`.
 */
module SassTemplate {
  import opened RubyArray
  import opened RubyHash
  import opened OptionValues
  import opened SassOptions

  /**
   * A source map: none (`nil`), what `format_source_map` makes of the engine's
   * raw map for an input, or the result of `combine_source_maps`.
   */
  datatype SourceMap =
    | NoMap
    | Formatted(raw: string, input: Input)
    | Combined(prior: SourceMap, latest: SourceMap)

  /** The Sprockets environment: its search paths, and the object itself. */
  datatype Environment = Environment(paths: seq<string>, ref: Scalar)

  /** What earlier processors recorded for the asset: its dependency URIs and its source map. */
  datatype InputMetadata = InputMetadata(dependencies: seq<string>, sourceMap: SourceMap)

  /** The `input` hash Sprockets passes to a processor. */
  datatype Input = Input(filename: string, data: string, environment: Environment, metadata: InputMetadata)

  /**
   * What the engine offers after rendering: `NotRendered` when asking for the
   * source map or the dependencies raises `SassC::NotRenderedError`, else the
   * raw source map and the file names of the dependencies.
   */
  datatype Rendering = NotRendered | Rendered(sourceMap: string, dependencyFiles: seq<string>)

  /** The outcome of rendering: a compile error (raised out of `call`), or the CSS and what else the engine offers. */
  datatype EngineOutcome = CompileError(message: string) | Compiled(css: string, rendering: Rendering)

  /** The returned metadata: the dependency set, the CSS, and the source map when one was set. */
  datatype Metadata = Metadata(dependencies: seq<string>, data: string, sourceMap: Option<SourceMap>)

  datatype Result<T> = Ok(value: T) | Err(message: string)

  /**
   * The processing context of one call.  Its dependency collection is a
   * Sprockets `Set` created from the input's dependencies: an insertion-ordered
   * sequence without repetitions, to which `<<` adds an element only when it is
   * new.
   */
  class Context {
    var dependencies: seq<string>

    ghost predicate Valid()
      reads this
    {
      Distinct(dependencies)
    }

    constructor(input: Input)
      ensures dependencies == Uniq(input.metadata.dependencies)
      ensures Valid()
    {
      dependencies := Uniq(input.metadata.dependencies);
    }

    /** `metadata[:dependencies] << uri`. */
    method AddDependency(uri: string)
      requires Valid()
      modifies this
      ensures Valid()
      ensures dependencies == if uri in old(dependencies) then old(dependencies) else old(dependencies) + [uri]
      ensures dependencies == Uniq(old(dependencies) + [uri])
    {
      UniqOfDistinct(dependencies);
      assert (dependencies + [uri])[..|dependencies|] == dependencies;
      if uri !in dependencies {
        dependencies := dependencies + [uri];
      }
    }

    /** The `each` loop over the engine's dependencies: `<<` the digest URI of every file, in order. */
    method AddFileDependencies(files: seq<string>, fileDigestUri: string -> string)
      requires Valid()
      modifies this
      ensures Valid()
      ensures dependencies == Uniq(old(dependencies) + DigestUris(fileDigestUri, files))
    {
      ghost var prior := dependencies;
      var i := 0;
      UniqOfDistinct(prior);
      assert prior + DigestUris(fileDigestUri, files[..0]) == prior;
      while i < |files|
        invariant 0 <= i <= |files|
        invariant Valid()
        invariant dependencies == Uniq(prior + DigestUris(fileDigestUri, files[..i]))
      {
        var uri := fileDigestUri(files[i]);
        AddDependency(uri);
        DigestUrisStep(fileDigestUri, prior, files, i);
        UniqOfUniqPrefix(prior + DigestUris(fileDigestUri, files[..i]), [uri]);
        i := i + 1;
      }
      assert files[..|files|] == files;
    }
  }

  /** The digest URI of each dependency file, in order. */
  function DigestUris(fileDigestUri: string -> string, files: seq<string>): (uris: seq<string>)
    ensures |uris| == |files|
    ensures forall i :: 0 <= i < |files| ==> uris[i] == fileDigestUri(files[i])
  {
    seq(|files|, i requires 0 <= i < |files| => fileDigestUri(files[i]))
  }

  /** The URIs of one more file extend the URIs of the files before it. */
  lemma DigestUrisStep(fileDigestUri: string -> string, prior: seq<string>, files: seq<string>, i: nat)
    requires i < |files|
    ensures prior + DigestUris(fileDigestUri, files[..i + 1])
         == (prior + DigestUris(fileDigestUri, files[..i])) + [fileDigestUri(files[i])]
  {
    assert DigestUris(fileDigestUri, files[..i + 1])
        == DigestUris(fileDigestUri, files[..i]) + [fileDigestUri(files[i])];
  }

  /** The `sprockets` option: the context, the environment and the context's dependency paths. */
  function SprocketsHash(environment: Environment, dependencyPaths: Val): (h: Val)
    ensures h.Hash?
    ensures KeysOf(h.entries) == [Name("context"), Name("environment"), Name("dependencies")]
  {
    Hash([(Name("context"), Atom(Obj("context"))),
          (Name("environment"), Atom(environment.ref)),
          (Name("dependencies"), dependencyPaths)])
  }

  /** The `sprockets` option hands the engine the environment and the dependency paths unchanged. */
  lemma SprocketsHashEntries(environment: Environment, dependencyPaths: Val)
    ensures var h := SprocketsHash(environment, dependencyPaths).entries;
            && UniqueKeys(h)
            && Lookup(h, Name("environment")) == Some(Atom(environment.ref))
            && Lookup(h, Name("dependencies")) == Some(dependencyPaths)
  {
    var h := SprocketsHash(environment, dependencyPaths).entries;
    assert "context"[0] != "environment"[0] && "context"[0] != "dependencies"[0];
    assert "environment"[0] != "dependencies"[0];
    assert UniqueKeys(h);
    LookupEntry(h, 1);
    LookupEntry(h, 2);
  }

  /**
   * The options `call` builds: the input-derived options, `config_options`
   * merged in with `merge!` and `safe_merge`, then the source-map settings
   * merged over them with `merge!` when source maps are supported.
   */
  method BuildOptions(input: Input, config: SassConfig, syntax: Syntax, sprockets: Val, supportSourceMaps: bool)
    returns (options: seq<(Key, Val)>)
    ensures options == EngineOptions(input.filename, input.environment.paths, config, syntax, sprockets, supportSourceMaps)
    ensures UniqueKeys(options)
  {
    var configured := ConfigOptions(config);
    options := BaseOptions(input.filename, input.environment.paths, config, syntax, sprockets);
    options := SafeMergeEntries(options, configured);
    if supportSourceMaps {
      options := Merge(options, SourceMapOptions(input.filename));
    }
    EngineOptionsKeys(input.filename, input.environment.paths, config, syntax, sprockets, supportSourceMaps);
  }

  /**
   * `call(input)`.  `assetsDebug` is `config.assets.debug`, `sprocketsVersion`
   * is `Sprockets::VERSION`, `config` the `config.sass` settings and
   * `dependencyPaths` what the context's metadata holds under
   * `:dependency_paths`.  Returns the options handed to the engine along with
   * the result.
   */
  method Call(input: Input, assetsDebug: bool, sprocketsVersion: string, config: SassConfig, syntax: Syntax,
              dependencyPaths: Val, render: (string, seq<(Key, Val)>) -> EngineOutcome,
              fileDigestUri: string -> string)
    returns (options: seq<(Key, Val)>, result: Result<Metadata>)
    ensures options == EngineOptions(input.filename, input.environment.paths, config, syntax,
                                     SprocketsHash(input.environment, dependencyPaths),
                                     SupportSourceMaps(assetsDebug, sprocketsVersion))
    ensures render(input.data, options).CompileError? ==> result == Err(render(input.data, options).message)
    ensures render(input.data, options).Compiled? && !SupportSourceMaps(assetsDebug, sprocketsVersion) ==>
              result == Ok(Metadata(Uniq(input.metadata.dependencies), render(input.data, options).css, None))
    ensures render(input.data, options).Compiled? && SupportSourceMaps(assetsDebug, sprocketsVersion) ==>
              var outcome := render(input.data, options);
              match outcome.rendering
              case NotRendered =>
                result == Ok(Metadata(Uniq(input.metadata.dependencies), outcome.css, Some(input.metadata.sourceMap)))
              case Rendered(raw, files) =>
                result == Ok(Metadata(Uniq(input.metadata.dependencies + DigestUris(fileDigestUri, files)),
                                      outcome.css,
                                      Some(Combined(input.metadata.sourceMap, Formatted(raw, input)))))
  {
    var context := new Context(input);
    var supportSourceMaps := SupportSourceMaps(assetsDebug, sprocketsVersion);

    options := BuildOptions(input, config, syntax, SprocketsHash(input.environment, dependencyPaths), supportSourceMaps);

    var outcome := render(input.data, options);
    if outcome.CompileError? {
      return options, Err(outcome.message);
    }
    var css := outcome.css;

    if !supportSourceMaps {
      return options, Ok(Metadata(context.dependencies, css, None));
    }

    var sourceMap: SourceMap;
    match outcome.rendering {
      case NotRendered =>
        sourceMap := input.metadata.sourceMap;
      case Rendered(raw, files) =>
        sourceMap := Formatted(raw, input);
        sourceMap := Combined(input.metadata.sourceMap, sourceMap);
        context.AddFileDependencies(files, fileDigestUri);
        UniqOfUniqPrefix(input.metadata.dependencies, DigestUris(fileDigestUri, files));
    }
    result := Ok(Metadata(context.dependencies, css, Some(sourceMap)));
  }

  /**
   * How the dependency set grows with the URIs of a rendering: what it held
   * before stays in front unchanged, every new URI is in it, nothing else is,
   * and no URI occurs twice.  When the URIs are distinct and none was there
   * before, the set grows by exactly one entry per URI, in order.
   */
  lemma DependencyGrowth(prior: seq<string>, uris: seq<string>)
    ensures var deps := Uniq(prior + uris);
            && |Uniq(prior)| <= |deps|
            && deps[..|Uniq(prior)|] == Uniq(prior)
            && Distinct(deps)
            && (forall u :: u in deps <==> u in prior || u in uris)
    ensures Distinct(uris) && (forall u :: u in uris ==> u !in prior) ==> Uniq(prior + uris) == Uniq(prior) + uris
    ensures Distinct(prior) ==> Uniq(prior) == prior
  {
    UniqAppend(prior, uris);
    assert (Uniq(prior) + KeepFirst(uris, Elems(prior)))[..|Uniq(prior)|] == Uniq(prior);
    if Distinct(uris) && (forall u :: u in uris ==> u !in prior) {
      UniqAppendFresh(prior, uris);
    }
    if Distinct(prior) {
      UniqOfDistinct(prior);
    }
  }

  /** Dependencies already in the set leave it unchanged. */
  lemma DependenciesAlreadyKnown(prior: seq<string>, uris: seq<string>)
    requires forall u :: u in uris ==> u in prior
    ensures Uniq(prior + uris) == Uniq(prior)
  {
    UniqAppendSeen(prior, uris);
  }
}
