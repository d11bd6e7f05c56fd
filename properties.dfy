/**
 * Properties of the resolution engine that span several operations: the
 * alias chain, the two-stage resolution, the derived names, and worked
 * examples of the devcontainer.json normalisation.
 */
module DevcontainerProperties {
  import opened Wrappers
  import opened Text
  import Paths
  import Normalizer
  import Hex
  import opened DevcontainerSpec

  // ---------------------------------------------------------------------
  // Registry aliases
  // ---------------------------------------------------------------------

  /** A leading `original` followed by text without its first rune is replaced once. */
  lemma ReplaceLeading(original: string, alias: string, rest: string)
    requires original != [] && original[0] !in rest
    ensures ReplaceAll(original + rest, original, alias) == alias + rest
  {
    var s := original + rest;
    assert StartsWith(s, original) && s[|original|..] == rest;
    assert ReplaceAll(s, original, alias) == alias + ReplaceAll(rest, original, alias);
    ReplaceAllWithoutHead(rest, original, alias);
  }

  /** Aliases chain in list order: x becomes y, and that y becomes z. */
  lemma AliasChain(x: string, y: string, z: string, rest: string)
    requires x != [] && y != [] && x[0] !in rest && y[0] !in rest
    ensures ApplyAliases(x + rest, [RegistryAlias(x, y), RegistryAlias(y, z)]) == z + rest
  {
    var aliases := [RegistryAlias(x, y), RegistryAlias(y, z)];
    assert aliases[..1] == [RegistryAlias(x, y)];
    ApplyOneAlias(x + rest, RegistryAlias(x, y));
    ReplaceLeading(x, y, rest);
    ReplaceLeading(y, z, rest);
  }

  /** With ("foo", "bar") then ("bar", "baz"), the image "foo:latest" becomes "baz:latest". */
  lemma AliasChainExample()
    ensures ApplyAliases("foo:latest", [RegistryAlias("foo", "bar"), RegistryAlias("bar", "baz")]) == "baz:latest"
  {
    AliasExampleParts();
    AliasChain("foo", "bar", "baz", ":latest");
  }

  lemma AliasExampleParts()
    ensures "foo:latest" == "foo" + ":latest" && "baz:latest" == "baz" + ":latest"
    ensures forall i :: 0 <= i < |":latest"| ==> ":latest"[i] != 'f' && ":latest"[i] != 'b'
  {
  }

  /**
   * An alias whose replacement ends with its original, such as a registry
   * mirror prefix, doubles the prefix when it is applied twice.
   */
  lemma MirrorAliasAppliedTwice(original: string, prefix: string)
    requires original != [] && original[0] !in prefix
    ensures var a := RegistryAlias(original, prefix + original);
      ApplyAliases(ApplyAliases(original, [a]), [a]) == prefix + prefix + original
  {
    var a := RegistryAlias(original, prefix + original);
    ApplyOneAlias(original, a);
    ApplyOneAlias(prefix + original, a);
    ReplaceAllWhole(original, prefix + original);
    ReplaceAllSkipsPrefix(prefix, original, original, prefix + original);
    ReplaceAllWhole(original, prefix + original);
  }

  // ---------------------------------------------------------------------
  // Two-stage resolution
  // ---------------------------------------------------------------------

  /** The configuration merged from the global file, when it exists and decodes. */
  predicate GlobalLoads(env: Environment, p: Platform, g: DevcontainerJson)
  {
    env.userConfigDir.Some?
    && ConfigFilePath(HomeConfigDir(env.userConfigDir.value)) in env.files
    && LoadJson(HomeConfigDir(env.userConfigDir.value), env, p) == Success(g)
  }

  /** The global file is absent from a known user configuration directory. */
  predicate GlobalAbsent(env: Environment)
  {
    env.userConfigDir.Some? && ConfigFilePath(HomeConfigDir(env.userConfigDir.value)) !in env.files
  }

  /** Without a user configuration directory nothing is read. */
  lemma NoUserConfigDir(path: string, env: Environment, p: Platform)
    requires env.userConfigDir.None?
    ensures Resolve(path, env, p) == Failure(UserConfigDirUnknown)
  {
  }

  /** With both files present and decoded, the result is the project merged over the global merge. */
  lemma ResolvedFromBothScopes(path: string, env: Environment, p: Platform, g: DevcontainerJson, j: DevcontainerJson)
    requires GlobalLoads(env, p, g) && LoadJson(path, env, p) == Success(j)
    ensures Resolve(path, env, p) == Success(Merged(Merged(EmptyConfig, "", g, env.files).config, path, j, env.files).config)
  {
  }

  /**
   * Global name "g" and project name "p" resolve to "p": the scalars come
   * from the project, the image with the aliases of both scopes applied.
   */
  lemma ProjectOverridesGlobal(path: string, env: Environment, p: Platform, g: DevcontainerJson, j: DevcontainerJson)
    requires GlobalLoads(env, p, g) && !DockerfileReadFails("", g, env.files)
    requires LoadJson(path, env, p) == Success(j) && !DockerfileReadFails(path, j, env.files)
    ensures Resolve(path, env, p).Success?
    ensures var c := Resolve(path, env, p).value;
      && c.name == j.name
      && c.context == j.build.context
      && c.registryAliases == g.customizations.devcli.registryAliases + j.customizations.devcli.registryAliases
      && c.image == ApplyAliases(j.image, c.registryAliases)
  {
    ResolvedFromBothScopes(path, env, p, g, j);
    assert [] + g.customizations.devcli.registryAliases == g.customizations.devcli.registryAliases;
  }

  /**
   * Global mounts ["a"] and project mounts ["b"] resolve to ["a", "b"]: the
   * lists of both scopes are concatenated, global first.
   */
  lemma ScopeListsAppend(path: string, env: Environment, p: Platform, g: DevcontainerJson, j: DevcontainerJson)
    requires GlobalLoads(env, p, g) && !DockerfileReadFails("", g, env.files)
    requires LoadJson(path, env, p) == Success(j) && !DockerfileReadFails(path, j, env.files)
    ensures Resolve(path, env, p).Success?
    ensures var c := Resolve(path, env, p).value;
      c.mounts == g.mounts + j.mounts && c.runArgs == g.runArgs + j.runArgs
  {
    ResolvedFromBothScopes(path, env, p, g, j);
    assert [] + g.mounts == g.mounts && [] + g.runArgs == g.runArgs;
  }

  /** Each scope adds exactly one slot to each command list, global first. */
  lemma ScopeCommandSlots(path: string, env: Environment, p: Platform, g: DevcontainerJson, j: DevcontainerJson)
    requires GlobalLoads(env, p, g) && !DockerfileReadFails("", g, env.files)
    requires LoadJson(path, env, p) == Success(j) && !DockerfileReadFails(path, j, env.files)
    ensures Resolve(path, env, p).Success?
    ensures var c := Resolve(path, env, p).value;
      c.postStartCommands == [g.postStartCommand, j.postStartCommand]
      && c.postCreateCommands == [g.postCreateCommand, j.postCreateCommand]
  {
    ResolvedFromBothScopes(path, env, p, g, j);
    CommandsOfTwoMerges(path, g, j, env.files);
  }

  /** Two successful merges into an empty configuration leave one command slot per merge. */
  lemma CommandsOfTwoMerges(path: string, g: DevcontainerJson, j: DevcontainerJson, files: map<string, string>)
    requires !DockerfileReadFails("", g, files) && !DockerfileReadFails(path, j, files)
    ensures var c := Merged(Merged(EmptyConfig, "", g, files).config, path, j, files).config;
      c.postStartCommands == [g.postStartCommand, j.postStartCommand]
      && c.postCreateCommands == [g.postCreateCommand, j.postCreateCommand]
  {
    var c0 := Merged(EmptyConfig, "", g, files).config;
    assert c0.postStartCommands == [g.postStartCommand] && c0.postCreateCommands == [g.postCreateCommand];
  }

  /**
   * A global file whose Dockerfile cannot be read is not an error: the merge
   * stops after taking over the global name, so the global lists and aliases
   * are lost and only the project's remain.
   */
  lemma GlobalMergeFailureIgnored(path: string, env: Environment, p: Platform, g: DevcontainerJson, j: DevcontainerJson)
    requires GlobalLoads(env, p, g) && DockerfileReadFails("", g, env.files)
    requires LoadJson(path, env, p) == Success(j) && !DockerfileReadFails(path, j, env.files)
    ensures Resolve(path, env, p).Success?
    ensures var c := Resolve(path, env, p).value;
      && c.name == j.name
      && c.mounts == j.mounts
      && c.runArgs == j.runArgs
      && c.postStartCommands == [j.postStartCommand]
      && c.registryAliases == j.customizations.devcli.registryAliases
  {
    var c0 := Merged(EmptyConfig, "", g, env.files).config;
    ResolvedFromBothScopes(path, env, p, g, j);
    assert c0.mounts == [] && c0.runArgs == [] && c0.postStartCommands == [] && c0.registryAliases == [];
    assert [] + j.mounts == j.mounts && [] + j.runArgs == j.runArgs;
    assert [] + j.customizations.devcli.registryAliases == j.customizations.devcli.registryAliases;
  }

  /** A missing global file is skipped: the result is the project file merged into an empty configuration. */
  lemma MissingGlobalSkipped(path: string, env: Environment, p: Platform)
    requires GlobalAbsent(env)
    ensures Resolve(path, env, p) ==
      match LoadJson(path, env, p)
      case Failure(e) => Failure(e)
      case Success(j) => Success(Merged(EmptyConfig, path, j, env.files).config)
  {
  }

  /** A missing project file is an error naming the file, whatever the global scope holds. */
  lemma MissingProjectFatal(path: string, env: Environment, p: Platform)
    requires env.userConfigDir.Some?
    requires ConfigFilePath(path) !in env.files
    requires ConfigFilePath(HomeConfigDir(env.userConfigDir.value)) in env.files ==>
      LoadJson(HomeConfigDir(env.userConfigDir.value), env, p).Success?
    ensures Resolve(path, env, p) == Failure(ReadFailed(ConfigFilePath(path)))
  {
  }

  /** A global file that does not decode stops resolution before the project file is read. */
  lemma GlobalDecodeFailureFatal(path: string, env: Environment, p: Platform, e: Error)
    requires env.userConfigDir.Some?
    requires ConfigFilePath(HomeConfigDir(env.userConfigDir.value)) in env.files
    requires LoadJson(HomeConfigDir(env.userConfigDir.value), env, p) == Failure(e)
    ensures Resolve(path, env, p) == Failure(e)
  {
  }

  /**
   * The global merge runs with an empty working directory, so a Dockerfile
   * named there is looked up relative to the process's working directory.
   */
  lemma GlobalDockerfileRelative(file: string)
    requires Paths.IsPlainName(file)
    ensures DockerfilePath("", file) == ".devcontainer/" + file
  {
    Paths.JoinUnderEmptyDirectory(".devcontainer", file);
  }

  /**
   * A Dockerfile named "../<file>" in an absolute working directory of plain
   * names is read from the working directory itself: the ".." undoes
   * ".devcontainer".
   */
  lemma ParentDockerfile(ds: seq<string>, file: string)
    requires ds != [] && Paths.AllPlainNames(ds) && Paths.IsPlainName(file)
    ensures DockerfilePath("/" + Paths.JoinElements(ds), "../" + file) == "/" + Paths.JoinElements(ds) + "/" + file
  {
    assert Paths.IsPlainName(".devcontainer");
    Paths.JoinThroughParent(ds, ".devcontainer", file);
  }

  /**
   * A global Dockerfile that the project does not replace has the global
   * aliases applied after the global merge and all aliases again after the
   * project merge.
   */
  lemma GlobalDockerfileAliasedAgain(path: string, env: Environment, p: Platform, g: DevcontainerJson, j: DevcontainerJson)
    requires GlobalLoads(env, p, g)
    requires g.dockerFile != "" && g.build.dockerfile == "" && DockerfilePath("", g.dockerFile) in env.files
    requires LoadJson(path, env, p) == Success(j) && j.dockerFile == "" && j.build.dockerfile == ""
    ensures Resolve(path, env, p).Success?
    ensures var ga := g.customizations.devcli.registryAliases;
      Resolve(path, env, p).value.dockerFileContent ==
        ApplyAliases(ApplyAliases(env.files[DockerfilePath("", g.dockerFile)], ga),
                     ga + j.customizations.devcli.registryAliases)
  {
    assert [] + g.customizations.devcli.registryAliases == g.customizations.devcli.registryAliases;
  }

  // ---------------------------------------------------------------------
  // Names
  // ---------------------------------------------------------------------

  /**
   * Once the hash is set from the configuration, the container name is
   * defined and ends with seven lower-case hex runes, and an image built
   * from a Dockerfile is named like the container.
   */
  lemma NamesOfHashedDevcontainer(d: Devcontainer, p: Platform)
    requires d.hash == DevcontainerHash(d.cwd, d.config, p)
    ensures |d.hash| >= 7
    ensures var n := d.ContainerName();
      |n| >= 16 && forall i :: |n| - 7 <= i < |n| ==> Hex.IsLowerHexDigit(n[i])
    ensures d.config.image == "" && d.config.dockerFileContent != "" ==> d.ImageName() == d.ContainerName()
  {
    var n := d.ContainerName();
    forall i | |n| - 7 <= i < |n|
      ensures Hex.IsLowerHexDigit(n[i])
    {
      assert n[i] == n[|n| - 7..][i - (|n| - 7)] == d.hash[i - (|n| - 7)];
    }
  }

  /**
   * For a project directory `dir/name`, the container is called
   * "devcli_", the lower-cased `name`, "_" and the first seven hash runes.
   */
  lemma ContainerNameOf(d: Devcontainer, dir: string, name: string)
    requires Paths.IsElement(name) && d.cwd == dir + "/" + name
    requires |d.hash| >= 7
    ensures d.ContainerName() == "devcli_" + ToLower(name) + "_" + d.hash[..7]
  {
    Paths.BaseOfChild(dir, name);
  }

  /** A project directory ".../MyProj" with a hash starting "abcdef1" runs as "devcli_myproj_abcdef1". */
  lemma ContainerNameExample(d: Devcontainer, parent: string)
    requires d.cwd == parent + "/" + "MyProj"
    requires |d.hash| >= 7 && d.hash[..7] == "abcdef1"
    ensures d.ContainerName() == "devcli_myproj_abcdef1"
    ensures d.config.image == "" && d.config.dockerFileContent != "" ==> d.ImageName() == "devcli_myproj_abcdef1"
  {
    ContainerNameOf(d, parent, "MyProj");
    LowerExample();
    NameLiteral("myproj", d.hash[..7]);
  }

  lemma NameLiteral(lower: string, short: string)
    requires lower == "myproj" && short == "abcdef1"
    ensures "devcli_" + lower + "_" + short == "devcli_myproj_abcdef1"
  {
  }

  lemma LowerExample()
    ensures ToLower("MyProj") == "myproj"
  {
    var lower := ToLower("MyProj");
    assert lower[0] == 'm' && lower[1] == 'y' && lower[2] == 'p';
    assert lower[3] == 'r' && lower[4] == 'o' && lower[5] == 'j';
  }

  // ---------------------------------------------------------------------
  // Normalisation examples
  // ---------------------------------------------------------------------

  /** A comma before the closing bracket of the last list of an object, and one before its brace, both go. */
  lemma TrailingCommasAtEnd(head: string)
    requires ',' !in head
    ensures Normalizer.StripTrailingCommas(Normalizer.StripTrailingCommas(head + ",],}", '}'), ']') == head + "]}"
  {
    Normalizer.StripTrailingCommasSkipsPrefix(head, ",],}", '}');
    CommaBeforeBracketKept();
    Normalizer.StripTrailingCommasSkipsPrefix(head, ",]}", ']');
    CommaBeforeBracketRemoved();
  }

  /** The pass for braces keeps a comma before a bracket. */
  lemma CommaBeforeBracketKept()
    ensures Normalizer.StripTrailingCommas(",],}", '}') == ",]}"
  {
    var s := ",],}";
    assert Normalizer.TrailingCommaAt(s, '}') == None by {
      assert Normalizer.SpaceRun(s[1..]) == 0;
    }
    assert s[1..] == "],}" && s[1..][1..] == ",}";
    assert Normalizer.TrailingCommaAt(",}", '}') == Some(2) by {
      assert Normalizer.SpaceRun(",}"[1..]) == 0;
    }
  }

  lemma CommaBeforeBracketRemoved()
    ensures Normalizer.StripTrailingCommas(",]}", ']') == "]}"
  {
    var s := ",]}";
    assert Normalizer.TrailingCommaAt(s, ']') == Some(2) by {
      assert Normalizer.SpaceRun(s[1..]) == 0;
    }
    assert s[2..] == "}";
  }

  /** `{"mounts": ["a",],}` loses both trailing commas. */
  lemma TrailingCommaExample()
    ensures Normalizer.StripTrailingCommas(Normalizer.StripTrailingCommas("{\"mounts\": [\"a\",],}", '}'), ']')
      == "{\"mounts\": [\"a\"]}"
  {
    var head := "{\"mounts\": [\"a\"";
    assert "{\"mounts\": [\"a\",],}" == head + ",],}";
    TrailingCommasAtEnd(head);
  }

  /** A comma after the last member, with the brace on the next line, goes. */
  lemma CommaBeforeIndentedBrace(head: string, indent: string)
    requires ',' !in head
    requires forall i :: 0 <= i < |indent| ==> indent[i] == ' '
    ensures Normalizer.StripTrailingCommas(head + ",\n" + indent + "}", '}') == head + "}"
  {
    var spaces := ['\n'] + indent;
    forall i | 0 <= i < |spaces| ensures Normalizer.IsSpace(spaces[i]) {
      if i > 0 { assert spaces[i] == indent[i - 1]; }
    }
    Normalizer.TrailingCommaRemoved(head, spaces, '}', []);
    assert Normalizer.StripTrailingCommas([], '}') == [];
    assert ",\n" == [','] + ['\n'] && "}" == ['}'];
    Regroup(head, [','], ['\n'], indent, ['}']);
  }

  lemma Regroup(a: string, b: string, c: string, d: string, e: string)
    ensures a + (b + c) + d + e == a + b + (c + d) + e + []
  {
  }

  /** A "//" preceded by ':' is not a comment, so a URL survives line-comment removal. */
  lemma UrlSurvivesExample()
    ensures Normalizer.StripLineComments("\"http://x\"") == "\"http://x\""
  {
    var s := "\"http://x\"";
    assert s[0] == '"';
    Normalizer.NoCommentMarkerOf(s, true);
    Normalizer.StripLineCommentsWithoutMarker(s, true);
  }

  /** A line comment at the start of the text is removed up to, and not including, its newline. */
  lemma LeadingLineComment(comment: string, rest: string)
    requires '\n' !in comment
    ensures Normalizer.StripLineComments("//" + comment + "\n" + rest)
      == "\n" + Normalizer.StripLineComments(rest)
  {
    var s := "//" + comment + "\n" + rest;
    assert StartsWith(s, "//") by {
      assert s[..2] == "//";
    }
    var n := Normalizer.LineEnd(s);
    assert s[|comment| + 2] == '\n';
    assert forall i :: 0 <= i < |comment| + 2 ==> s[i] != '\n' by {
      forall i | 0 <= i < |comment| + 2
        ensures s[i] != '\n'
      {
        if i >= 2 {
          assert s[i] == comment[i - 2];
        }
      }
    }
    assert n == |comment| + 2;
    var t := "\n" + rest;
    assert s[n..] == t;
    assert Normalizer.LineCommentAt(s, true);
    assert Normalizer.StripLineComments(s) == Normalizer.StripLineCommentsFrom(t, false);
    assert !Normalizer.LineCommentAt(t, false);
    assert t[1..] == rest;
  }

  /** `// c` on a line of its own leaves only the newline. */
  lemma LineCommentExample()
    ensures Normalizer.StripLineComments("// c\n{}") == "\n{}"
  {
    assert "// c\n{}" == "//" + " c" + "\n" + "{}";
    LeadingLineComment(" c", "{}");
    assert Normalizer.StripLineComments("{}") == "{}";
  }

  /** A text holding no "//" at all has no comment marker. */
  lemma NoDoubleSlash(s: string)
    requires forall i :: 0 <= i < |s| - 1 ==> !(s[i] == '/' && s[i + 1] == '/')
    ensures Normalizer.StripLineComments(s) == s
  {
    assert !StartsWith(s, "//") by {
      if |s| >= 2 {
        assert !(s[0] == '/' && s[1] == '/');
        assert s[..2] != "//";
      }
    }
    Normalizer.NoCommentMarkerOf(s, true);
    Normalizer.StripLineCommentsWithoutMarker(s, true);
  }

  /**
   * A line comment before the JSON and a block comment after it are both
   * removed, as for `// comment`, `{"image": "x"}` and a two-line block
   * comment; the newline that ended the line comment and the blank before
   * the block comment remain.
   */
  lemma CommentsAroundJson(comment: string, json: string, body: string)
    requires '\n' !in comment && '/' !in json && '/' !in body
    ensures var s := "//" + comment + "\n" + (json + (" /*" + body + "*/"));
      Normalizer.StripBlockComments(Normalizer.StripLineComments(s)) == "\n" + json + " "
  {
    var rest := json + (" /*" + body + "*/");
    LeadingLineComment(comment, rest);
    NoDoubleSlashAroundBlock(json, body);
    NoDoubleSlash(rest);
    TrailingBlockRemoved(json, body);
  }

  /** JSON and a block comment free of "/" hold no "//" when a blank separates them. */
  lemma NoDoubleSlashAroundBlock(json: string, body: string)
    requires '/' !in json && '/' !in body
    ensures var rest := json + (" /*" + body + "*/");
      forall i :: 0 <= i < |rest| - 1 ==> !(rest[i] == '/' && rest[i + 1] == '/')
  {
    var tail := " /*" + body + "*/";
    var rest := json + tail;
    forall i | 0 <= i < |rest| - 1
      ensures !(rest[i] == '/' && rest[i + 1] == '/')
    {
      if i < |json| {
        assert rest[i] == json[i];
      } else if i - |json| < |tail| - 2 {
        var k := i - |json|;
        assert rest[i + 1] == tail[k + 1];
        if k >= 2 {
          assert tail[k + 1] == '*' || tail[k + 1] == body[k - 2];
        }
      }
    }
  }

  /** A block comment after the JSON and a blank is removed, and the JSON is kept. */
  lemma TrailingBlockRemoved(json: string, body: string)
    requires '/' !in json && '/' !in body
    ensures Normalizer.StripBlockComments("\n" + (json + (" /*" + body + "*/"))) == "\n" + json + " "
  {
    var head := "\n" + json + " ";
    assert forall i :: 0 <= i < |head| ==> head[i] != '/' by {
      forall i | 0 <= i < |head| ensures head[i] != '/' {
        if 0 < i <= |json| {
          assert head[i] == json[i - 1];
        }
      }
    }
    assert "\n" + (json + (" /*" + body + "*/")) == head + ("/*" + body + "*/" + "");
    Normalizer.StripBlockCommentsSkipsPrefix(head, "/*" + body + "*/" + "");
    Normalizer.BlockCommentRemoved(body, "");
  }

  /** An unset `${localEnv:...}` variable is replaced by nothing, without an error. */
  lemma UnsetEnvExample(before: string, after: string, env: map<string, string>)
    requires "NOPE_XYZ" !in env
    requires '$' !in before && '$' !in after
    ensures Normalizer.SubstituteEnv(before + ("${localEnv:NOPE_XYZ}" + after), env) == before + after
  {
    assert "${localEnv:NOPE_XYZ}" == Normalizer.LocalEnvOpen + "NOPE_XYZ" + "}";
    Normalizer.EnvPlaceholder(before, "NOPE_XYZ", after, env);
  }

  /**
   * For the project directory ".../proj" the basename placeholder becomes
   * "proj" inside any text without another "$".
   */
  lemma BasenamePlaceholderExample(before: string, parent: string, after: string)
    requires '$' !in before && '$' !in parent && '$' !in after
    ensures Normalizer.SubstituteWorkspace(before + Normalizer.LocalWorkspaceFolderBasename + after, parent + "/" + "proj")
      == before + "proj" + after
  {
    ProjectPath(parent);
    Normalizer.WorkspaceBasenamePlaceholder(before, parent + "/" + "proj", after);
  }

  /**
   * For the project directory ".../proj" the container folder placeholder
   * becomes "/workspaces/proj" inside any text without another "$".
   */
  lemma ContainerPlaceholderExample(before: string, parent: string, after: string)
    requires '$' !in before && '$' !in parent && '$' !in after
    ensures Normalizer.SubstituteWorkspace(before + Normalizer.ContainerWorkspaceFolder + after, parent + "/" + "proj")
      == before + "/workspaces/proj" + after
  {
    var path := parent + "/" + "proj";
    ProjectPath(parent);
    Normalizer.ContainerFolderPlaceholder(before, path, after);
    ProjectFolder();
  }

  lemma ProjectPath(parent: string)
    requires '$' !in parent
    ensures var path := parent + "/" + "proj";
      '$' !in path && Paths.Base(path) == "proj" && Paths.IsPlainName("proj")
  {
    Paths.BaseOfChild(parent, "proj");
    Normalizer.RuneNotInConcat(parent, "/", '$');
    Normalizer.RuneNotInConcat(parent + "/", "proj", '$');
  }

  lemma ProjectFolder()
    ensures "/workspaces/" + "proj" == "/workspaces/proj"
  {
  }
}
