# devcli configuration resolution, in Dafny

This project models the configuration-resolution engine of devcli
(`devcontainer_spec/devcontainer_spec.go`). devcli is a command-line tool that
runs development containers described by `.devcontainer/devcontainer.json`.
The engine:

- reads a global `devcontainer.json` from the user configuration directory, if
  there is one, and then the project's own file;
- turns the relaxed JSON dialect into strict JSON: line comments, block
  comments and trailing commas go, and `${localEnv:NAME}` and the workspace
  placeholders are replaced;
- merges each decoded file into one effective configuration: scalars are
  overwritten, lists appended, each command list gains one slot, and registry
  aliases are applied again after every merge;
- hashes the result together with the project directory, and derives the image
  and container names from that hash.

Modules:

- `Wrappers`: `Option` and `Result`.
- `Text`: `strings.ReplaceAll` (including Go's behaviour for an empty target)
  and ASCII lower-casing.
- `Paths`: Unix `path.Clean`, `path.Join` and `filepath.Base`.
- `Hex`: bytes, 32-byte digests, and lower-case hex encoding with its decoder.
- `Normalizer`: the eight text passes of `parseDevcontainerJson`. Each regular
  expression is re-expressed as a scanner with Go's leftmost, non-overlapping
  matching. `Regexp.Expand` handles the replacement text of the workspace
  passes.
- `DevcontainerSpec`: the records and `Merged`, the pure specification of a
  merge. The class `Devcontainer` has `Merge`, `ApplyRegistryAliases` and the
  three naming functions. The module also holds the hash, the loader method
  with its specification `LoadJson`, `ParseDevcontainer` and its
  specification `Resolve`. The global step of `ParseDevcontainer` is the
  helper method `MergeGlobalScope`, specified by `GlobalScope`.
- `DevcontainerProperties`: lemmas that span several operations, such as the
  two-stage resolution, alias chains, names, and worked normalisation examples.

Files, environment variables and the user configuration directory are one
`Environment` value:

- files are a map from path to contents;
- a file that `os.Stat` finds can also be read by `os.ReadFile`.

SHA-256, the JSON encoder and decoder, and the string-to-bytes conversion are
fields of a `Platform` value: deterministic functions the model does not open.

The model keeps these details of the code:

- The Dockerfile content is hashed separately, after the JSON of the
  configuration. That JSON already contains the content
  (devcontainer_spec.go:177-179).
- A Dockerfile is read relative to the current `Cwd`, and `Cwd` is still empty
  during the global merge. So a global Dockerfile is looked up under
  `.devcontainer/` relative to the process's working directory, not the
  configuration directory (`GlobalDockerfileRelative`).
- The error `Merge` returns is ignored by both callers (lines 78 and 87), so a
  Dockerfile that cannot be read is not fatal. The merge returns at the failed
  read: the name has been taken over, and so has the content of a `dockerFile`
  read before a failing `build.dockerfile` read (lines 210-223). The context,
  image, lists and aliases of that file are not taken over, and no alias is
  applied again. For a global file the global lists and aliases are therefore
  lost (`GlobalMergeFailureIgnored`).
- If the project names no Dockerfile, the global Dockerfile content survives
  the project merge. The global aliases have already been applied to it once,
  and the project merge applies the whole accumulated list again
  (`GlobalDockerfileAliasedAgain`). An alias whose replacement contains its
  original, such as a mirror prefix, is therefore applied twice
  (`MirrorAliasAppliedTwice`).

## Model

| member | source | states |
|---|---|---|
| Text.ReplaceAllWithoutHead | devcontainer_spec/devcontainer_spec.go:238-239 | replacing a target whose first rune does not occur in the text leaves the text unchanged |
| Text.ReplaceAllSkipsPrefix | devcontainer_spec/devcontainer_spec.go:238-239 | a prefix free of the target's first rune is copied unchanged, and replacement continues after it |
| Text.ReplaceAllHeadOnly | devcontainer_spec/devcontainer_spec.go:238-239 | when the target's first rune occurs only at the head of the text, the result is one replacement or nothing |
| Text.ReplaceAllWhole | devcontainer_spec/devcontainer_spec.go:135 | replacing the whole text by a value gives that value |
| Text.ReplaceAll | devcontainer_spec/devcontainer_spec.go:238-239 | definition: Go's `strings.Replace` with n = -1, leftmost and non-overlapping, and an empty target inserting at every rune boundary |
| Text.ReplaceAtHead | devcontainer_spec/devcontainer_spec.go:238-239 | an occurrence at the head is replaced and the scan resumes right after it |
| Text.ReplaceOtherAtHead | devcontainer_spec/devcontainer_spec.go:238-239 | text at the head that differs from the target before either ends is copied, and the scan resumes after it |
| Text.ReplaceAround | devcontainer_spec/devcontainer_spec.go:238-239 | a single occurrence between texts that never hold the target's first rune is replaced, and the texts around it are kept |
| Text.ReplaceAroundOther | devcontainer_spec/devcontainer_spec.go:238-239 | text that differs from the target, between texts without the target's first rune, is left unchanged |
| Text.ReplaceTwiceSame | devcontainer_spec/devcontainer_spec.go:135 | replacing two occurrences of the same target, then that target again: the first pass replaces both and the second changes nothing |
| Text.ReplaceTwiceOther | devcontainer_spec/devcontainer_spec.go:135 | replacing one target, then a different one with the same first rune: each pass replaces only its own occurrence |
| Text.ReplaceAllSelf | devcontainer_spec/devcontainer_spec.go:238-239 | an alias that maps a string to itself changes nothing, for the empty string too |
| Text.InsertAtRuneBoundaries | devcontainer_spec/devcontainer_spec.go:238 | with an empty target, the replacement is inserted at each of the len+1 rune boundaries |
| Text.InsertAtRuneBoundariesBlock | devcontainer_spec/devcontainer_spec.go:238 | with an empty target, the replacement stands at the start of each of the len+1 blocks |
| Text.InsertAtRuneBoundariesRune | devcontainer_spec/devcontainer_spec.go:238 | with an empty target, rune i of the text follows the replacement in block i, so the runes keep their order |
| Text.ToLower | devcontainer_spec/devcontainer_spec.go:201 | same length, no upper-case ASCII letter remains, other runes are kept, upper-case ones are shifted by 32 |
| Paths.Base | devcontainer_spec/devcontainer_spec.go:142 | the base of a path is never empty, is "/" or holds no slash, and consists of runes of the path |
| Paths.BaseOfEmpty | devcontainer_spec/devcontainer_spec.go:142 | the base of the empty path is "." |
| Paths.BaseOfSlashes | devcontainer_spec/devcontainer_spec.go:142 | the base of a path made only of slashes is "/" |
| Paths.BaseIgnoresTrailingSlash | devcontainer_spec/devcontainer_spec.go:142 | a trailing slash does not change the base of a non-empty path |
| Paths.BaseOfChild | devcontainer_spec/devcontainer_spec.go:201 | the base of `dir/name` is `name` |
| Paths.Clean | devcontainer_spec/devcontainer_spec.go:211 | a cleaned path is never empty |
| Paths.CleanRelativePlain | devcontainer_spec/devcontainer_spec.go:211 | a relative path of plain names is already clean |
| Paths.CleanAbsolutePlain | devcontainer_spec/devcontainer_spec.go:145 | an absolute path of plain names is already clean |
| Paths.SimplifyParent | devcontainer_spec/devcontainer_spec.go:211 | a plain name followed by ".." cancels out |
| Paths.SimplifyPlainPrefix | devcontainer_spec/devcontainer_spec.go:211 | plain names at the front are kept, and cleaning goes on after them |
| Paths.ElementsOfJoin | devcontainer_spec/devcontainer_spec.go:211 | splitting a slash-joined list of elements gives the list back |
| Paths.JoinElementsAppend | devcontainer_spec/devcontainer_spec.go:211 | joining two non-empty lists of elements puts one slash between them |
| Paths.Join | devcontainer_spec/devcontainer_spec.go:211 | definition: `path.Join` joins the non-empty arguments with slashes and cleans the result, or gives "" when all are empty |
| Paths.JoinThroughParent | devcontainer_spec/devcontainer_spec.go:211 | joining an absolute directory of plain names, a plain name and "../" + a file gives the directory + "/" + the file |
| Paths.JoinUnderEmptyDirectory | devcontainer_spec/devcontainer_spec.go:211 | joining "", a directory and a name gives the relative path `dir/name` |
| Paths.JoinUnderRoot | devcontainer_spec/devcontainer_spec.go:145 | joining "/root" and a name gives "/root/name" |
| Hex.DigitValue | devcontainer_spec/devcontainer_spec.go:183 | a rune has a value iff it is a lower-case hex digit, and the value's digit is that rune |
| Hex.Encode | devcontainer_spec/devcontainer_spec.go:183 | two lower-case hex runes per byte |
| Hex.DecodeEncode | devcontainer_spec/devcontainer_spec.go:183 | decoding the encoding gives back the bytes |
| Hex.EncodeInjective | devcontainer_spec/devcontainer_spec.go:183 | different byte strings have different encodings |
| Text.RunBefore | devcontainer_spec/devcontainer_spec.go:112 | the index of the first given rune, or the length when there is none; no earlier rune is that rune. `.*` stops at the first newline, and a path element at the first slash |
| Normalizer.StripLineCommentsKeepsNewlines | devcontainer_spec/devcontainer_spec.go:112-113 | removing line comments keeps every newline |
| Normalizer.LineCommentSkipped | devcontainer_spec/devcontainer_spec.go:112-113 | a comment match is non-empty, holds no newline, and scanning resumes at the end of its line |
| Normalizer.NoCommentMarkerOf | devcontainer_spec/devcontainer_spec.go:112 | a "//" that neither starts a line nor follows a blank is not a comment |
| Normalizer.StripLineCommentsWithoutMarker | devcontainer_spec/devcontainer_spec.go:112-113 | text without comment markers is left unchanged |
| Normalizer.StripLineComments | devcontainer_spec/devcontainer_spec.go:112-113 | definition: each match of `(^|[ \t]+)//.*` in multi-line mode is removed, scanning left to right |
| Normalizer.FindBlockEnd | devcontainer_spec/devcontainer_spec.go:116 | the lazy `[\s\S]*?` stops at the first closer, or there is none |
| Normalizer.BlockCommentRemoved | devcontainer_spec/devcontainer_spec.go:116-117 | a closed block comment is removed whole, and scanning resumes after it |
| Normalizer.StripBlockCommentsWithoutOpener | devcontainer_spec/devcontainer_spec.go:116-117 | text without an opener is left unchanged |
| Normalizer.StripBlockCommentsSkipsPrefix | devcontainer_spec/devcontainer_spec.go:116-117 | a prefix without "/" is copied unchanged |
| Normalizer.StripBlockComments | devcontainer_spec/devcontainer_spec.go:116-117 | definition: each `/*` up to the first following `*/` is removed; an unclosed `/*` stays |
| Normalizer.TrailingCommaAt | devcontainer_spec/devcontainer_spec.go:120 | a match is a comma, white space only, then the closer |
| Normalizer.TrailingCommaAtComplete | devcontainer_spec/devcontainer_spec.go:120-123 | every comma followed by white space and then the closer is a match, with its full length |
| Normalizer.TrailingCommaRemoved | devcontainer_spec/devcontainer_spec.go:120-123 | a comma, white space and the closer become the closer alone; the text before is kept and scanning goes on after the closer |
| Normalizer.CommaKept | devcontainer_spec/devcontainer_spec.go:120-123 | a comma whose white space is followed by any other non-space rune stays, and scanning goes on after it |
| Normalizer.StripTrailingCommasKeepsSignificant | devcontainer_spec/devcontainer_spec.go:120-123 | only commas and white space are removed; every other rune, closers included, stays in order |
| Normalizer.StripTrailingCommasWithoutComma | devcontainer_spec/devcontainer_spec.go:120-123 | text without commas is left unchanged |
| Normalizer.StripTrailingCommasSkipsPrefix | devcontainer_spec/devcontainer_spec.go:120-123 | a prefix without commas is copied unchanged |
| Normalizer.StripTrailingCommas | devcontainer_spec/devcontainer_spec.go:120-123 | definition: each match of `,\s*` followed by the closer becomes the closer, leftmost and non-overlapping; one pass for "}" and one for "]" |
| Normalizer.EnvMatches | devcontainer_spec/devcontainer_spec.go:126-127 | each match is `${localEnv:` + a non-empty name without a newline + `}` |
| Normalizer.LazyNameEndOf | devcontainer_spec/devcontainer_spec.go:126 | the lazy `.+?}` ends at the first `}` after at least one rune |
| Normalizer.EnvMatchesOfPlaceholder | devcontainer_spec/devcontainer_spec.go:126-127 | a placeholder at the head of the text is the first match, whole and with its name, and the search goes on right after it |
| Normalizer.EnvMatchesOfTwo | devcontainer_spec/devcontainer_spec.go:126-127 | two placeholders in text without another "$" are exactly the two matches, in order |
| Normalizer.ResolveLocalEnv | devcontainer_spec/devcontainer_spec.go:127-136 | the loop over the matches computes `SubstituteEnv` |
| Normalizer.EnvPlaceholder | devcontainer_spec/devcontainer_spec.go:126-136 | a placeholder becomes the variable's value, or "" when it is unset; the surrounding text is kept |
| Normalizer.TwoEnvPlaceholders | devcontainer_spec/devcontainer_spec.go:126-136 | two placeholders become their variables' values, each in its place; a second placeholder for the same variable is replaced by the first replace-all, one for another variable by its own |
| Normalizer.SubstituteEnv | devcontainer_spec/devcontainer_spec.go:126-136 | definition: all matches are found first, then each match text is replaced everywhere by its variable's value, or "" when unset |
| Normalizer.SubstituteEnvWithoutDollar | devcontainer_spec/devcontainer_spec.go:126-136 | text without "$" is left unchanged |
| Normalizer.ExpandWithoutDollar | devcontainer_spec/devcontainer_spec.go:140 | a replacement without "$" is used literally |
| Normalizer.ExpandEscapedDollar | devcontainer_spec/devcontainer_spec.go:140 | "$$" in the replacement stands for "$" |
| Normalizer.ExpandWholeMatch | devcontainer_spec/devcontainer_spec.go:140 | "${0}" in the replacement stands for the whole match |
| Normalizer.ExpandOtherGroup | devcontainer_spec/devcontainer_spec.go:140 | a reference to any other group stands for nothing |
| Normalizer.ExpandStrayDollar | devcontainer_spec/devcontainer_spec.go:140 | a "$" followed by the end or by a rune that is not "$", "{" or a name rune stands for itself |
| Normalizer.ExpandUnbracedGroup | devcontainer_spec/devcontainer_spec.go:140 | "$name" takes the longest run of name runes and stands for the whole match when the name is "0", for nothing otherwise |
| Normalizer.ExpandUnclosedBrace | devcontainer_spec/devcontainer_spec.go:140 | "${" whose name is not closed by "}" starts no reference: the "$" stands for itself |
| Normalizer.Expand | devcontainer_spec/devcontainer_spec.go:140 | definition: `Regexp.Expand` of a replacement template against a match with no groups but the whole match |
| Normalizer.WorkspaceFolderPlaceholder | devcontainer_spec/devcontainer_spec.go:139-140 | `${localWorkspaceFolder}` anywhere in text without another "$" becomes the project path; the text before and after it is kept |
| Normalizer.WorkspaceBasenamePlaceholder | devcontainer_spec/devcontainer_spec.go:139-143 | `${localWorkspaceFolderBasename}` anywhere in text without another "$" becomes the base of the project path, untouched by the folder pass; the text around it is kept |
| Normalizer.ContainerFolderOf | devcontainer_spec/devcontainer_spec.go:145 | the container folder is "/workspaces/" + the base of the project path |
| Normalizer.ContainerFolderPlaceholder | devcontainer_spec/devcontainer_spec.go:139-146 | `${containerWorkspaceFolder}` anywhere in text without another "$" becomes "/workspaces/" + the base of the project path, untouched by the two earlier passes; the text around it is kept |
| Normalizer.SubstituteWorkspaceWithoutDollar | devcontainer_spec/devcontainer_spec.go:138-146 | text without "$" is left unchanged by the workspace passes |
| Normalizer.SubstituteWorkspace | devcontainer_spec/devcontainer_spec.go:138-146 | definition: the three workspace passes in source order, with the path, its base and "/workspaces/<base>" |
| Normalizer.Normalize | devcontainer_spec/devcontainer_spec.go:111-146 | definition: the eight text passes of `parseDevcontainerJson` in source order |
| DevcontainerSpec.ApplyAliasesAppend | devcontainer_spec/devcontainer_spec.go:236-240 | applying a list of aliases is applying its first part, then the rest |
| DevcontainerSpec.ApplyOneAlias | devcontainer_spec/devcontainer_spec.go:238-239 | no aliases change nothing; one alias is one replace-all |
| DevcontainerSpec.ApplyAliases | devcontainer_spec/devcontainer_spec.go:236-240 | definition: every alias applied in list order, each as one replace-all |
| DevcontainerSpec.Merged | devcontainer_spec/devcontainer_spec.go:206-233 | the name is always taken over. The merge fails iff a Dockerfile read fails, and then only the name and any content read so far have changed. Otherwise context and image come from the file, `build.dockerfile` beats `dockerFile` and with neither the old content stays, lists are appended, each command list gains exactly one slot, and the image and content carry all accumulated aliases |
| DevcontainerSpec.Devcontainer.Merge | devcontainer_spec/devcontainer_spec.go:206-233 | the new configuration and the returned error are those of `Merged`; the working directory and hash are unchanged |
| DevcontainerSpec.Devcontainer.ApplyRegistryAliases | devcontainer_spec/devcontainer_spec.go:235-243 | image and Dockerfile content have every alias applied in list order; nothing else changes |
| DevcontainerSpec.DevcontainerHash | devcontainer_spec/devcontainer_spec.go:162-184 | 64 lower-case hex runes that decode to the SHA-256 of the directory, the configuration's JSON and any Dockerfile content |
| DevcontainerSpec.HashInput | devcontainer_spec/devcontainer_spec.go:162-181 | definition: the directory, then the configuration's JSON, then any Dockerfile content, as bytes |
| DevcontainerSpec.ParseDevcontainerJson | devcontainer_spec/devcontainer_spec.go:101-155 | the result is `LoadJson`: a missing file is a read error naming it; otherwise the normalised text is decoded, and a decoding error carries that text |
| DevcontainerSpec.LoadJson | devcontainer_spec/devcontainer_spec.go:101-155 | definition: a read error naming a missing file, or the normalised text decoded, with the text in a decoding error |
| DevcontainerSpec.Devcontainer.constructor | devcontainer_spec/devcontainer_spec.go:64 | empty directory, empty configuration, empty hash |
| DevcontainerSpec.Devcontainer.DevcNamePrefix | devcontainer_spec/devcontainer_spec.go:200-202 | "devcli_", the lower-cased base of the directory, "_"; no upper-case ASCII letter |
| DevcontainerSpec.Devcontainer.ContainerName | devcontainer_spec/devcontainer_spec.go:196-198 | the prefix followed by the first seven runes of the hash |
| DevcontainerSpec.Devcontainer.ImageName | devcontainer_spec/devcontainer_spec.go:186-194 | the configured image if any; otherwise the container name when there is a Dockerfile; otherwise "", and "" only then |
| DevcontainerSpec.ParseDevcontainer | devcontainer_spec/devcontainer_spec.go:63-96 | fails exactly when `Resolve` fails, with its error; otherwise a fresh devcontainer with the project directory, the configuration of `Resolve`, and its hash |
| DevcontainerSpec.Resolve | devcontainer_spec/devcontainer_spec.go:63-96 | definition: an unknown user configuration directory is an error; otherwise the global step, then the project file loaded and merged under the project directory, merge errors ignored |
| DevcontainerSpec.MergeGlobalScope | devcontainer_spec/devcontainer_spec.go:69-79 | the global step is `GlobalScope`: a load error of an existing global file is returned, otherwise the configuration is the global file merged into the empty one, or stays empty without that file; the working directory and hash are unchanged |
| DevcontainerSpec.GlobalScope | devcontainer_spec/devcontainer_spec.go:69-79 | definition: the global file merged into the empty configuration when it exists and loads, its load error when it does not load, or the empty configuration without it |
| DevcontainerProperties.AliasChain | devcontainer_spec/devcontainer_spec.go:236-240 | aliases (x, y) then (y, z) turn x into z |
| DevcontainerProperties.AliasChainExample | devcontainer_spec/devcontainer_spec.go:236-240 | ("foo", "bar") then ("bar", "baz") turn "foo:latest" into "baz:latest" |
| DevcontainerProperties.MirrorAliasAppliedTwice | devcontainer_spec/devcontainer_spec.go:231 | an alias prefixing its original, applied twice, doubles the prefix |
| DevcontainerProperties.NoUserConfigDir | devcontainer_spec/devcontainer_spec.go:65-68 | without a user configuration directory resolution fails with that error |
| DevcontainerProperties.ResolvedFromBothScopes | devcontainer_spec/devcontainer_spec.go:69-87 | with both files decoded, the result is the project merged over the global merge |
| DevcontainerProperties.ProjectOverridesGlobal | devcontainer_spec/devcontainer_spec.go:71-87 | name and context come from the project (global "g", project "p" gives "p"); aliases are global then project; the image carries them all |
| DevcontainerProperties.ScopeListsAppend | devcontainer_spec/devcontainer_spec.go:226-227 | mounts and run arguments are global then project (["a"] and ["b"] give ["a", "b"]) |
| DevcontainerProperties.ScopeCommandSlots | devcontainer_spec/devcontainer_spec.go:228-229 | each scope adds exactly one entry to each command list, global first |
| DevcontainerProperties.CommandsOfTwoMerges | devcontainer_spec/devcontainer_spec.go:228-229 | two successful merges into an empty configuration give command lists of exactly two entries, in merge order |
| DevcontainerProperties.GlobalMergeFailureIgnored | devcontainer_spec/devcontainer_spec.go:78 | an unreadable global Dockerfile is not an error, but the global lists and aliases are lost |
| DevcontainerProperties.MissingGlobalSkipped | devcontainer_spec/devcontainer_spec.go:71-79 | without a global file the result is the project file merged into an empty configuration |
| DevcontainerProperties.MissingProjectFatal | devcontainer_spec/devcontainer_spec.go:82-85 | a missing project file fails resolution with a read error naming it |
| DevcontainerProperties.GlobalDecodeFailureFatal | devcontainer_spec/devcontainer_spec.go:73-76 | a global file that does not decode fails resolution with its error |
| DevcontainerProperties.GlobalDockerfileRelative | devcontainer_spec/devcontainer_spec.go:211 | a Dockerfile named by the global file is read from the relative path ".devcontainer/<file>" |
| DevcontainerProperties.ParentDockerfile | devcontainer_spec/devcontainer_spec.go:211 | a Dockerfile named "../<file>" under an absolute project directory is read from that directory's "<file>" |
| DevcontainerProperties.GlobalDockerfileAliasedAgain | devcontainer_spec/devcontainer_spec.go:231 | a global Dockerfile the project keeps has the global aliases applied, then all aliases again |
| DevcontainerProperties.NamesOfHashedDevcontainer | devcontainer_spec/devcontainer_spec.go:186-198 | once hashed, the container name is defined and ends in seven lower-case hex runes, and an image built from a Dockerfile is named like the container |
| DevcontainerProperties.ContainerNameOf | devcontainer_spec/devcontainer_spec.go:196-202 | the container of `dir/name` is "devcli_" + lower(name) + "_" + hash[0:7] |
| DevcontainerProperties.ContainerNameExample | devcontainer_spec/devcontainer_spec.go:186-202 | ".../MyProj" with hash "abcdef1..." gives the container name and Dockerfile image name "devcli_myproj_abcdef1" |
| DevcontainerProperties.TrailingCommasAtEnd | devcontainer_spec/devcontainer_spec.go:120-123 | the commas before the final "]" and "}" both go |
| DevcontainerProperties.TrailingCommaExample | devcontainer_spec/devcontainer_spec.go:120-123 | `{"mounts": ["a",],}` becomes `{"mounts": ["a"]}` |
| DevcontainerProperties.CommaBeforeIndentedBrace | devcontainer_spec/devcontainer_spec.go:120-121 | a comma, a newline, an indentation and "}" become "}" |
| DevcontainerProperties.UrlSurvivesExample | devcontainer_spec/devcontainer_spec.go:112-113 | "http://x" inside quotes is not a comment |
| DevcontainerProperties.LeadingLineComment | devcontainer_spec/devcontainer_spec.go:112-113 | a comment line is removed up to its newline |
| DevcontainerProperties.LineCommentExample | devcontainer_spec/devcontainer_spec.go:112-113 | "// c\n{}" becomes "\n{}" |
| DevcontainerProperties.CommentsAroundJson | devcontainer_spec/devcontainer_spec.go:111-117 | a line comment before the JSON and a block comment after it are removed, and only the JSON and white space remain |
| DevcontainerProperties.UnsetEnvExample | devcontainer_spec/devcontainer_spec.go:129-135 | `${localEnv:NOPE_XYZ}` with the variable unset becomes "" |
| DevcontainerProperties.BasenamePlaceholderExample | devcontainer_spec/devcontainer_spec.go:141-143 | for "<parent>/proj" the basename placeholder, with any text around it, becomes "proj" in that text |
| DevcontainerProperties.ContainerPlaceholderExample | devcontainer_spec/devcontainer_spec.go:144-146 | for "<parent>/proj" the container placeholder, with any text around it, becomes "/workspaces/proj" in that text |

## Left out

- The packages `docker`, `logging` and `main.go` are not part of this model. Neither are the log calls inside the core, including the warning for an unset variable (line 132); they do not change any result.
- SHA-256, `json.Marshal`, `json.Unmarshal` and the string-to-bytes conversion are opaque deterministic functions of `Platform`. The JSON field names and `omitempty` tags are therefore not modelled; a decoded file is a `DevcontainerJson` value whose missing fields are "" or [].
- DevcontainerSpec.DevcontainerHash: the error path of `json.Marshal` (lines 171-173) and the resulting error of `ParseDevcontainer` (lines 89-91) are not modelled. The configuration holds only strings and lists of strings, so marshalling cannot fail.
- The file system is a map from path to contents. A file that `os.Stat` finds can always be read, so read errors other than absence (permissions, directories) are not modelled. `os.UserConfigDir` is an optional directory, and `os.LookupEnv` is a map.
- Strings are sequences of runes; invalid UTF-8 and byte-level behaviour of the regular expressions are not modelled.
- Text.ToLower: lower-cases only ASCII letters, while `strings.ToLower` also lower-cases other Unicode letters.
- Normalizer.Expand: accepts only ASCII letters, digits and "_" in a group name, while Go also accepts other Unicode letters and digits.
- Each regular expression is modelled as a scanner written to match the semantics of Go's `regexp`. No general regular-expression engine is modelled, so the two are not proved equivalent.
- Paths: only Unix paths; `filepath` on Windows uses different separators and volume names.
- DevcontainerSpec.ParseDevcontainer: Go returns the `Devcontainer` by value; the model returns a freshly allocated object. On failure Go returns a zero value, which the model leaves out.
