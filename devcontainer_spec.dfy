/**
 * The configuration-resolution engine of the devcli tool: the configuration
 * records, merging a decoded devcontainer.json into the accumulated
 * configuration, registry aliases, the identity hash, the derived image and
 * container names, and the two-stage (global, then project) resolution.
 *
 * The file system, the environment variables and the user configuration
 * directory are given as an `Environment` value; SHA-256, the JSON encoder
 * and decoder and the string-to-bytes conversion as a `Platform` value.
 */
module DevcontainerSpec {
  import opened Wrappers
  import opened Text
  import Paths
  import Normalizer
  import Hex

  const NamePrefix := "devcli"

  datatype RegistryAlias = RegistryAlias(original: string, alias: string)

  /** The effective configuration built up by successive merges. */
  datatype DevcontainerConfig = DevcontainerConfig(
    name: string,
    dockerFileContent: string,
    context: string,
    image: string,
    mounts: seq<string>,
    runArgs: seq<string>,
    postStartCommands: seq<string>,
    postCreateCommands: seq<string>,
    registryAliases: seq<RegistryAlias>)

  const EmptyConfig := DevcontainerConfig("", "", "", "", [], [], [], [], [])

  datatype Build = Build(dockerfile: string, context: string)

  datatype DevcliCustomizations = DevcliCustomizations(registryAliases: seq<RegistryAlias>)

  datatype Customizations = Customizations(devcli: DevcliCustomizations)

  /** One decoded devcontainer.json; a field the file leaves out decodes to "" or []. */
  datatype DevcontainerJson = DevcontainerJson(
    name: string,
    dockerFile: string,
    build: Build,
    image: string,
    mounts: seq<string>,
    runArgs: seq<string>,
    postStartCommand: string,
    postCreateCommand: string,
    customizations: Customizations)

  datatype Error =
    | UserConfigDirUnknown
    | ReadFailed(path: string)
    | UnmarshalFailed(message: string, text: string)

  /** Files by path, environment variables by name, and the user configuration directory if known. */
  datatype Environment = Environment(
    files: map<string, string>,
    vars: map<string, string>,
    userConfigDir: Option<string>)

  /** The library functions the engine calls, as deterministic functions. */
  datatype Platform = Platform(
    sha256: seq<Hex.byte> -> Hex.Digest,
    marshal: DevcontainerConfig -> seq<Hex.byte>,
    bytesOf: string -> seq<Hex.byte>,
    unmarshal: string -> Result<DevcontainerJson, string>)

  // ---------------------------------------------------------------------
  // Registry aliases
  // ---------------------------------------------------------------------

  /** Every alias pair replaces its original everywhere, in list order. */
  function ApplyAliases(s: string, aliases: seq<RegistryAlias>): string
  {
    if aliases == [] then s
    else
      var a := aliases[|aliases| - 1];
      ReplaceAll(ApplyAliases(s, aliases[..|aliases| - 1]), a.original, a.alias)
  }

  /** The configuration after `ApplyRegistryAliases`. */
  function WithAliasesApplied(c: DevcontainerConfig): DevcontainerConfig
  {
    c.(image := ApplyAliases(c.image, c.registryAliases),
       dockerFileContent := ApplyAliases(c.dockerFileContent, c.registryAliases))
  }

  /** Applying a list of aliases is applying its first part, then the rest. */
  lemma {:induction false} ApplyAliasesAppend(s: string, a: seq<RegistryAlias>, b: seq<RegistryAlias>)
    ensures ApplyAliases(s, a + b) == ApplyAliases(ApplyAliases(s, a), b)
    decreases |b|
  {
    if b == [] {
      assert a + b == a;
    } else {
      var last := b[|b| - 1];
      assert (a + b)[..|a + b| - 1] == a + b[..|b| - 1];
      ApplyAliasesAppend(s, a, b[..|b| - 1]);
    }
  }

  /** An empty alias list changes nothing; a single pair is one replacement. */
  lemma ApplyOneAlias(s: string, a: RegistryAlias)
    ensures ApplyAliases(s, []) == s
    ensures ApplyAliases(s, [a]) == ReplaceAll(s, a.original, a.alias)
  {
    assert [a][..0] == [];
  }

  // ---------------------------------------------------------------------
  // Merge
  // ---------------------------------------------------------------------

  /** `path.Join(cwd, ".devcontainer", file)`: where a named Dockerfile is read. */
  function DockerfilePath(cwd: string, file: string): string
  {
    Paths.Join([cwd, ".devcontainer", file])
  }

  /** One of the two Dockerfile reads of a merge fails. */
  predicate DockerfileReadFails(cwd: string, j: DevcontainerJson, files: map<string, string>)
  {
    (j.dockerFile != "" && DockerfilePath(cwd, j.dockerFile) !in files) ||
    (j.build.dockerfile != "" && DockerfilePath(cwd, j.build.dockerfile) !in files)
  }

  /** The configuration after a merge, and the error the merge returns. */
  datatype MergeOutcome = MergeOutcome(config: DevcontainerConfig, err: Option<Error>)

  /**
   * `Merge`: the name is taken over first; then the Dockerfile named by
   * "dockerFile" and the one named by "build.dockerfile" are read, in that
   * order, and a failed read stops the merge; then the scalars are
   * overwritten, the lists appended, one command slot added to each command
   * list, and the registry aliases applied again.
   */
  function Merged(c: DevcontainerConfig, cwd: string, j: DevcontainerJson, files: map<string, string>): (o: MergeOutcome)
    // last writer wins for the name, even when the merge fails
    ensures o.config.name == j.name
    ensures o.err.Some? <==> DockerfileReadFails(cwd, j, files)
    // a failed merge has changed the name and at most the content of a Dockerfile read before the failure
    ensures o.err.Some? ==>
      var p := DockerfilePath(cwd, j.dockerFile);
      o.config == c.(name := j.name,
                     dockerFileContent := if j.dockerFile != "" && p in files then files[p] else c.dockerFileContent)
    ensures o.err.None? ==> o.config.context == j.build.context
    ensures o.err.None? ==> o.config.registryAliases == c.registryAliases + j.customizations.devcli.registryAliases
    ensures o.err.None? ==> o.config.image == ApplyAliases(j.image, o.config.registryAliases)
    // "build.dockerfile" beats "dockerFile"; with neither the old content stays
    ensures o.err.None? ==>
      o.config.dockerFileContent == ApplyAliases(
        if j.build.dockerfile != "" then files[DockerfilePath(cwd, j.build.dockerfile)]
        else if j.dockerFile != "" then files[DockerfilePath(cwd, j.dockerFile)]
        else c.dockerFileContent,
        o.config.registryAliases)
    ensures o.err.None? ==> o.config.mounts == c.mounts + j.mounts
    ensures o.err.None? ==> o.config.runArgs == c.runArgs + j.runArgs
    // one slot per merge, even for an empty command
    ensures o.err.None? ==> o.config.postStartCommands == c.postStartCommands + [j.postStartCommand]
    ensures o.err.None? ==> o.config.postCreateCommands == c.postCreateCommands + [j.postCreateCommand]
  {
    var named := c.(name := j.name);
    var p1 := DockerfilePath(cwd, j.dockerFile);
    if j.dockerFile != "" && p1 !in files then MergeOutcome(named, Some(ReadFailed(p1)))
    else
      var c1 := if j.dockerFile != "" then named.(dockerFileContent := files[p1]) else named;
      var p2 := DockerfilePath(cwd, j.build.dockerfile);
      if j.build.dockerfile != "" && p2 !in files then MergeOutcome(c1, Some(ReadFailed(p2)))
      else
        var c2 := if j.build.dockerfile != "" then c1.(dockerFileContent := files[p2]) else c1;
        var c3 := c2.(context := j.build.context,
                      image := j.image,
                      mounts := c2.mounts + j.mounts,
                      runArgs := c2.runArgs + j.runArgs,
                      postStartCommands := c2.postStartCommands + [j.postStartCommand],
                      postCreateCommands := c2.postCreateCommands + [j.postCreateCommand],
                      registryAliases := c2.registryAliases + j.customizations.devcli.registryAliases);
        MergeOutcome(WithAliasesApplied(c3), None)
  }

  // ---------------------------------------------------------------------
  // Identity hash
  // ---------------------------------------------------------------------

  /**
   * What is fed to SHA-256: the working directory, the JSON of the
   * configuration and, when there is one, the Dockerfile content.
   */
  function HashInput(cwd: string, config: DevcontainerConfig, p: Platform): seq<Hex.byte>
  {
    p.bytesOf(cwd) + p.marshal(config)
      + (if config.dockerFileContent != "" then p.bytesOf(config.dockerFileContent) else [])
  }

  /** `calculateDevcontainerHash`: the lower-case hex SHA-256 of the hash input. */
  function DevcontainerHash(cwd: string, config: DevcontainerConfig, p: Platform): (h: string)
    ensures |h| == 64
    ensures forall i :: 0 <= i < |h| ==> Hex.IsLowerHexDigit(h[i])
    ensures Hex.Decode(h) == Some(p.sha256(HashInput(cwd, config, p)))
  {
    var digest := p.sha256(HashInput(cwd, config, p));
    Hex.DecodeEncode(digest);
    Hex.Encode(digest)
  }

  // ---------------------------------------------------------------------
  // Loading one devcontainer.json
  // ---------------------------------------------------------------------

  /** `filepath.Join(dir, ".devcontainer", "devcontainer.json")`. */
  function ConfigFilePath(dir: string): string
  {
    Paths.Join([dir, ".devcontainer", "devcontainer.json"])
  }

  /**
   * `parseDevcontainerJson`: read the configuration file below `dir`,
   * normalise it and decode it; a decoding failure carries the normalised text.
   */
  function LoadJson(dir: string, env: Environment, p: Platform): Result<DevcontainerJson, Error>
  {
    var file := ConfigFilePath(dir);
    if file !in env.files then Failure(ReadFailed(file))
    else
      var text := Normalizer.Normalize(env.files[file], dir, env.vars);
      match p.unmarshal(text)
      case Failure(message) => Failure(UnmarshalFailed(message, text))
      case Success(j) => Success(j)
  }

  /** The passes of `parseDevcontainerJson`, one reassignment of the text after another. */
  method ParseDevcontainerJson(dir: string, env: Environment, p: Platform) returns (r: Result<DevcontainerJson, Error>)
    ensures r == LoadJson(dir, env, p)
  {
    var devPath := ConfigFilePath(dir);
    if devPath !in env.files {
      return Failure(ReadFailed(devPath));
    }
    var jsonStr := env.files[devPath];
    jsonStr := Normalizer.StripLineComments(jsonStr);
    jsonStr := Normalizer.StripBlockComments(jsonStr);
    jsonStr := Normalizer.StripTrailingCommas(jsonStr, '}');
    jsonStr := Normalizer.StripTrailingCommas(jsonStr, ']');

    ghost var beforeEnv := jsonStr;
    jsonStr := Normalizer.ResolveLocalEnv(jsonStr, env.vars);
    ghost var afterEnv := jsonStr;
    assert afterEnv == Normalizer.SubstituteEnv(beforeEnv, env.vars);

    jsonStr := Normalizer.ReplaceLiteralMatches(jsonStr, Normalizer.LocalWorkspaceFolder, dir);
    var basename := Paths.Base(dir);
    jsonStr := Normalizer.ReplaceLiteralMatches(jsonStr, Normalizer.LocalWorkspaceFolderBasename, basename);
    var containerWorkspaceFolder := Paths.Join([Normalizer.ContainerWorkspacesRoot, basename]);
    jsonStr := Normalizer.ReplaceLiteralMatches(jsonStr, Normalizer.ContainerWorkspaceFolder, containerWorkspaceFolder);
    assert jsonStr == Normalizer.SubstituteWorkspace(afterEnv, dir);
    assert jsonStr == Normalizer.Normalize(env.files[devPath], dir, env.vars);

    var decoded := p.unmarshal(jsonStr);
    if decoded.Failure? {
      return Failure(UnmarshalFailed(decoded.error, jsonStr));
    }
    return Success(decoded.value);
  }

  // ---------------------------------------------------------------------
  // The devcontainer being resolved
  // ---------------------------------------------------------------------

  class Devcontainer {
    var cwd: string
    var config: DevcontainerConfig
    var hash: string

    /** The zero value `Devcontainer{}`. */
    constructor ()
      ensures cwd == "" && config == EmptyConfig && hash == ""
    {
      cwd := "";
      config := EmptyConfig;
      hash := "";
    }

    /** Folds a decoded devcontainer.json into the configuration. */
    method Merge(j: DevcontainerJson, files: map<string, string>) returns (err: Option<Error>)
      modifies this
      ensures cwd == old(cwd) && hash == old(hash)
      ensures MergeOutcome(config, err) == Merged(old(config), old(cwd), j, files)
    {
      config := config.(name := j.name);
      if j.dockerFile != "" {
        var path := DockerfilePath(cwd, j.dockerFile);
        if path !in files {
          return Some(ReadFailed(path));
        }
        config := config.(dockerFileContent := files[path]);
      }
      if j.build.dockerfile != "" {
        var path := DockerfilePath(cwd, j.build.dockerfile);
        if path !in files {
          return Some(ReadFailed(path));
        }
        config := config.(dockerFileContent := files[path]);
      }
      config := config.(context := j.build.context);
      config := config.(image := j.image);
      config := config.(mounts := config.mounts + j.mounts);
      config := config.(runArgs := config.runArgs + j.runArgs);
      config := config.(postStartCommands := config.postStartCommands + [j.postStartCommand]);
      config := config.(postCreateCommands := config.postCreateCommands + [j.postCreateCommand]);
      config := config.(registryAliases := config.registryAliases + j.customizations.devcli.registryAliases);
      ApplyRegistryAliases();
      return None;
    }

    /** Rewrites the image and the Dockerfile content with every alias pair in turn. */
    method ApplyRegistryAliases()
      modifies this
      ensures cwd == old(cwd) && hash == old(hash)
      ensures config == WithAliasesApplied(old(config))
    {
      var aliases := config.registryAliases;
      var i := 0;
      while i < |aliases|
        invariant 0 <= i <= |aliases|
        invariant cwd == old(cwd) && hash == old(hash)
        invariant config == old(config).(image := ApplyAliases(old(config).image, aliases[..i]),
                                         dockerFileContent := ApplyAliases(old(config).dockerFileContent, aliases[..i]))
      {
        var alias := aliases[i];
        assert aliases[..i + 1][..i] == aliases[..i];
        config := config.(image := ReplaceAll(config.image, alias.original, alias.alias));
        config := config.(dockerFileContent := ReplaceAll(config.dockerFileContent, alias.original, alias.alias));
        i := i + 1;
      }
      assert aliases[..i] == aliases;
    }

    /** `GetDevcNamePrefix`: "devcli_", the lower-cased last element of the working directory, "_". */
    function DevcNamePrefix(): (r: string)
      reads this
      ensures |r| >= 9 && r[..7] == NamePrefix + "_" && r[|r| - 1] == '_'
      ensures r[7..|r| - 1] == ToLower(Paths.Base(cwd))
      ensures forall i :: 0 <= i < |r| ==> !IsUpperAscii(r[i])
    {
      var head := NamePrefix + "_";
      var lower := ToLower(Paths.Base(cwd));
      var r := head + lower + "_";
      assert |head| == 7 && r[..7] == head;
      assert r[7..|r| - 1] == lower;
      forall i | 0 <= i < |r|
        ensures !IsUpperAscii(r[i])
      {
        if i < 7 {
          assert r[i] == head[i] == "devcli_"[i];
        } else if i < |r| - 1 {
          assert r[i] == lower[i - 7];
        }
      }
      r
    }

    /** `GetContainerName`: the prefix and the first seven hash runes. */
    function ContainerName(): (r: string)
      reads this
      requires |hash| >= 7
      ensures |r| == |DevcNamePrefix()| + 7
      ensures r[..|r| - 7] == DevcNamePrefix() && r[|r| - 7..] == hash[..7]
    {
      DevcNamePrefix() + hash[..7]
    }

    /**
     * `GetImageName`: the configured image if there is one; otherwise, when a
     * Dockerfile is to be built, the container name; otherwise "".
     */
    function ImageName(): (r: string)
      reads this
      requires config.image == "" && config.dockerFileContent != "" ==> |hash| >= 7
      ensures config.image != "" ==> r == config.image
      ensures config.image == "" && config.dockerFileContent != "" ==> r == ContainerName()
      ensures r == "" <==> config.image == "" && config.dockerFileContent == ""
    {
      if config.image != "" then config.image
      else if config.dockerFileContent != "" then DevcNamePrefix() + hash[..7]
      else ""
    }
  }

  // ---------------------------------------------------------------------
  // Two-stage resolution
  // ---------------------------------------------------------------------

  /** `filepath.Join(userConfigDir, "devcli")`. */
  function HomeConfigDir(userConfigDir: string): string
  {
    Paths.Join([userConfigDir, "devcli"])
  }

  /**
   * The configuration after the global scope: the global file below `home`
   * merged into an empty configuration with an empty working directory,
   * or the empty configuration when there is no such file.
   */
  function GlobalScope(home: string, env: Environment, p: Platform): Result<DevcontainerConfig, Error>
  {
    if ConfigFilePath(home) !in env.files then Success(EmptyConfig)
    else match LoadJson(home, env, p)
      case Failure(e) => Failure(e)
      case Success(g) => Success(Merged(EmptyConfig, "", g, env.files).config)
  }

  /**
   * The configuration `ParseDevcontainer` ends with: the global file merged
   * (with an empty working directory) if it exists, then the project file
   * merged; errors of the merges themselves are ignored.
   */
  function Resolve(path: string, env: Environment, p: Platform): Result<DevcontainerConfig, Error>
  {
    match env.userConfigDir
    case None => Failure(UserConfigDirUnknown)
    case Some(dir) =>
      match GlobalScope(HomeConfigDir(dir), env, p)
      case Failure(e) => Failure(e)
      case Success(c) =>
        match LoadJson(path, env, p)
        case Failure(e) => Failure(e)
        case Success(j) => Success(Merged(c, path, j, env.files).config)
  }

  /** `ParseDevcontainer`: builds the devcontainer for the project at `path` step by step. */
  method ParseDevcontainer(path: string, env: Environment, p: Platform) returns (r: Result<Devcontainer, Error>)
    ensures r.Failure? <==> Resolve(path, env, p).Failure?
    ensures r.Failure? ==> r.error == Resolve(path, env, p).error
    ensures r.Success? ==>
      fresh(r.value) && r.value.cwd == path && r.value.config == Resolve(path, env, p).value
      && r.value.hash == DevcontainerHash(path, r.value.config, p)
  {
    var devc := new Devcontainer();
    if env.userConfigDir.None? {
      return Failure(UserConfigDirUnknown);
    }
    var homeConfigDir := HomeConfigDir(env.userConfigDir.value);
    var globalErr := MergeGlobalScope(devc, homeConfigDir, env, p);
    if globalErr.Some? {
      return Failure(globalErr.value);
    }
    devc.cwd := path;
    var projectData := ParseDevcontainerJson(path, env, p);
    if projectData.Failure? {
      return Failure(projectData.error);
    }
    var ignored := devc.Merge(projectData.value, env.files);
    devc.hash := DevcontainerHash(devc.cwd, devc.config, p);
    return Success(devc);
  }

  /**
   * The global step of `ParseDevcontainer`: when the global file below
   * `home` exists it is loaded, and a load error is returned; otherwise it is
   * merged with the devcontainer's (empty) working directory, ignoring the
   * merge's own error.
   */
  method MergeGlobalScope(devc: Devcontainer, home: string, env: Environment, p: Platform) returns (err: Option<Error>)
    requires devc.config == EmptyConfig && devc.cwd == ""
    modifies devc
    ensures err.Some? <==> GlobalScope(home, env, p).Failure?
    ensures err.Some? ==> err.value == GlobalScope(home, env, p).error
    ensures err.None? ==> devc.config == GlobalScope(home, env, p).value
    ensures devc.cwd == old(devc.cwd) && devc.hash == old(devc.hash)
  {
    var homeConfigDevcontainer := ConfigFilePath(home);
    if homeConfigDevcontainer in env.files {
      var globalData := ParseDevcontainerJson(home, env, p);
      if globalData.Failure? {
        return Some(globalData.error);
      }
      var ignored := devc.Merge(globalData.value, env.files);
    }
    return None;
  }
}
