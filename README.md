# svg-spritesheet-plugin — a Dafny model of the icon-type generator

`SvgSpriteSheetPlugin` is a webpack plug-in. It wraps the sprite-loader plug-in and,
on every build, regenerates a small TypeScript file. That file has one side-effect
`import` per SVG icon found (recursively) under the icons directory, and an `IconType`
union of the icon names. The file is rewritten only when its text changes.

This project models the plug-in's constructor and its one piece of real logic,
`generateIconTypeFile`:

- `wrappers.dfy`: `Option` and `Result`.
- `strings.dfy`: JavaScript's `Array.prototype.join`, and splitting a text into lines.
  The lines are used to state what the generated file looks like.
- `icon_extraction.dfy` (module `IconExtraction`): the loop over the directory listing.
  It keeps the names ending in `.svg` and drops that suffix. `ExtractIcons` is the loop,
  proved against the function `IconIds`.
- `relative_prefix.dfy` (module `RelativePrefix`): turns backslashes into slashes and
  puts `./` in front unless the path already starts with `.`.
- `icon_type_render.dfy` (module `IconTypeRender`): the template that renders the file,
  and the file's exact lines.
- `fs.dfy` (module `Fs`): the three `fs` calls the generator makes (`readFileSync`,
  recursive `mkdirSync`, `writeFileSync`). They act on a filesystem held as a map from
  absolute paths (lists of segments) to files and directories. The class `FileSystem`
  holds that map as mutable state.
- `plugin.dfy` (module `Plugin`): option defaulting, the change-detecting write, and the
  class `SvgSpriteSheetPlugin`. Its static method `GenerateIconTypeFile` does the steps
  of the source in the source's order. It is proved equal to the function `Generate`,
  and the lemmas state what the source promises about `Generate`.

The generator's inputs that come from Node's library are taken as parameters:
- the names `readdirSync(iconsDir, {recursive: true, withFileTypes: true})` returns, in
  its order, or `None` when it throws;
- the raw string `path.relative(path.dirname(iconTypeAbs), iconsDirAbs)`;
- the absolute target path, already resolved.

Three behaviours of the code are worth knowing, and the model keeps them:
- Identifiers are not de-duplicated. Two `a.svg` in different subdirectories give `a`
  twice (`AddedIconAppended`, `ExtractNamedIcons`).
- Only a leading `.` is tested, not `./` or `../`. So a relative path `.icons` (a hidden
  directory) stays `.icons`, which is not a relative module specifier
  (`HiddenDirectoryPrefix`).
- Directory entries are not filtered to files. A directory whose name ends in `.svg`
  also yields an identifier.

## Model

| member | source | states |
|---|---|---|
| Strings.Join | src/index.ts:81-82 | defined as `Array.prototype.join`: the parts with the separator between each two, `""` for no parts; no contract of its own |
| IconExtraction.HasSvgSuffix | src/index.ts:73 | defined as: the name is at least four characters long and its last four are `.svg`; no contract of its own |
| IconExtraction.StripSvgSuffix | src/index.ts:74 | the identifier plus `.svg` is the name; exactly four characters are removed |
| IconExtraction.IconIds | src/index.ts:71-76 | defined as the identifiers of the `.svg` names, in listing order; no contract of its own (its properties are the lemmas below) |
| IconExtraction.IconIdsSnoc | src/index.ts:72-75 | one more name in the listing appends its identifier when it ends in `.svg`, and nothing otherwise |
| IconExtraction.IconIdsLength | src/index.ts:71-76 | the number of identifiers is the number of `.svg` entries |
| IconExtraction.IconIdAtEntry | src/index.ts:71-76 | the `.svg` entry at position j gives the identifier at the index equal to the number of `.svg` entries before j, its name without the last four characters |
| IconExtraction.EntryOrderKept | src/index.ts:71-76 | an earlier `.svg` entry's identifier stands before every later one's: traversal order is kept |
| IconExtraction.IconIdsCharacterised | src/index.ts:72-76 | every identifier comes from a listed name `<id>.svg`, and every `.svg` name gives its identifier |
| IconExtraction.IconIdsAppend | src/index.ts:71-76 | extraction of a concatenated listing is the concatenation of the extractions |
| IconExtraction.NonSvgNameIgnored | src/index.ts:73 | a name not ending in `.svg` contributes nothing, wherever it stands |
| IconExtraction.AddedIconAppended | src/index.ts:73-74 | an added `<id>.svg` appends `id` even when it repeats an identifier (no de-duplication) |
| IconExtraction.ExtractNamedIcons | src/index.ts:71-76 | extraction from the names `<id>.svg` gives the identifiers back, order and duplicates included |
| IconExtraction.ExtractionEdgeCases | src/index.ts:73-74 | the suffix test is exact and case-sensitive (`<id>.SVG` and `<id>.svg.bak` give nothing), and a name that is only `.svg` gives the empty identifier |
| IconExtraction.ExtractIcons | src/index.ts:71-76 | the push loop returns exactly `IconIds` of the listing |
| RelativePrefix.ReplaceBackslashes | src/index.ts:78 | same length; each `\` becomes `/`, every other character is kept |
| RelativePrefix.NormalizePrefix | src/index.ts:78-79 | no `\`, starts with `.`, `""` gives `./`, a path starting with `.` only has its separators replaced, others get `./` in front |
| RelativePrefix.NormalizeIdempotent | src/index.ts:78-79 | normalising a normalised prefix changes nothing |
| RelativePrefix.NormalizeSeparatorIndependent | src/index.ts:78 | the prefix is the same whether the host writes separators as `/` or `\` |
| RelativePrefix.NormalizeMakesRelative | src/index.ts:79 | a path not starting with `.` becomes a relative module specifier (starts with `./`) |
| RelativePrefix.HiddenDirectoryPrefix | src/index.ts:79 | a path into a hidden directory, such as `.icons`, is left as it is and so is not a relative module specifier |
| IconTypeRender.ImportLine | src/index.ts:81 | defined as `import "<prefix>/<id>.svg";`; no contract of its own |
| IconTypeRender.ImportBlock | src/index.ts:81 | defined as the import lines joined with `\n`; no contract of its own |
| IconTypeRender.UnionText | src/index.ts:82 | defined as the quoted identifiers joined with a line break, four spaces, a bar and a space; no contract of its own |
| IconTypeRender.TypeDeclaration | src/index.ts:83-85 | defined as `type IconType = `, the union and `;`; no contract of its own |
| IconTypeRender.Render | src/index.ts:83-87 | defined as the template: imports, a blank line, the type declaration and the two trailer lines; no contract of its own (its lines are `RenderLines`) |
| IconTypeRender.ImportBlockLines | src/index.ts:81 | the import block is `""` for no icons, else exactly one line `import "<prefix>/<id>.svg";` per identifier, in order |
| IconTypeRender.TypeDeclarationLines | src/index.ts:82-85 | the type declaration has one line per alternative: the first led by `type IconType = `, each further one led by four spaces and a bar, the last ending in `;` |
| IconTypeRender.RenderLines | src/index.ts:81-87 | the file's lines are the imports (one empty line if none), a blank line, the declaration lines and the two trailer lines |
| IconTypeRender.GeneratedLinesShape | src/index.ts:81-87 | the first lines are the non-empty import lines in order; with no icons the first line is empty; with n icons there are 2n+3 lines |
| IconTypeRender.RenderNoIcons | src/index.ts:81-87 | with no icons the file is two empty lines, `type IconType = ;` and the trailer |
| IconTypeRender.RenderTwoIcons | src/index.ts:81-87 | icons `a`, `b` give two import lines and the alternatives `"a"`, `"b"` in that order |
| IconTypeRender.RenderInjective | src/index.ts:81-87 | for a fixed prefix, different identifier lists render different files |
| IconTypeRender.RenderPrefixOnlyAffectsImports | src/index.ts:81-87 | changing the prefix changes only the import lines, never the type lines |
| Fs.Dirname | src/index.ts:97 | the parent path plus the last segment is the path |
| Fs.ReadFile | src/index.ts:89-94 | content exactly when a file is at the path; a missing path or a directory reads as no content |
| Fs.Mkdirp | src/index.ts:97 | fails, creating nothing, exactly when a file blocks the way: ENOTDIR when the file is a proper ancestor, EEXIST when it is the directory itself; otherwise adds the missing ancestors as directories and keeps every entry |
| Fs.WriteFile | src/index.ts:98 | succeeds exactly when the path is not a directory and its parent is one; then only the path changes, to the new content; ENOTDIR only when a file stands on the way, ENOENT only when the parent is missing and no file is on the way |
| Fs.MkdirpOnFile | src/index.ts:97 | in a well-formed filesystem, creating a directory where a file stands fails with EEXIST |
| Fs.MkdirpPreparesParent | src/index.ts:97-98 | after a successful `mkdir -p` of a path's parent, the parent is a directory and the path itself is as it was |
| Fs.MkdirpWellFormed | src/index.ts:97 | creating directories keeps every entry's ancestors directories |
| Fs.WriteFileWellFormed | src/index.ts:98 | writing under existing directories keeps the filesystem well formed |
| Fs.FileSystem.ReadFileSync | src/index.ts:91 | returns the file's content, or none for a missing path or a directory; changes nothing |
| Fs.FileSystem.MkdirSync | src/index.ts:97 | the new state is `Mkdirp` of the old one, or unchanged on failure |
| Fs.FileSystem.WriteFileSync | src/index.ts:98 | the new state is the old one with the path holding the content, or unchanged on failure |
| Plugin.OrElse | src/index.ts:29-30 | defined as the given value when it is present and truthy, else the fallback; no contract of its own (its use is `ResolveOptions`) |
| Plugin.ResolveOptions | src/index.ts:27-32 | each option is the given value when it is present and truthy, else `./icons`, `./src/components/common/IconType.ts`, `{plainSprite: true}`; no argument gives all defaults |
| Plugin.ResolveOptionsIdempotent | src/index.ts:28-32 | resolving already resolved options gives them back |
| Plugin.IconTypeContents | src/index.ts:78-87 | defined as the rendered file for the listing's identifiers and the normalised prefix; no contract of its own |
| Plugin.WriteIfChanged | src/index.ts:89-99 | defined as: no write when the read content equals the new one, else `mkdir -p` of the parent then the write, stopping at the first failure; no contract of its own (its properties are the lemmas below) |
| Plugin.Generate | src/index.ts:70-100 | defined as a failure when the listing throws, else `WriteIfChanged` with the rendered contents; no contract of its own |
| Plugin.GenerateWithoutListing | src/index.ts:72 | a listing that throws fails the call with the filesystem untouched |
| Plugin.WriteIfChangedWritesIffDifferent | src/index.ts:89-99 | a write happens iff the old file is absent, unreadable or different; no write leaves the filesystem as it was; success leaves the new content at the target |
| Plugin.WriteIfChangedFailsIff | src/index.ts:95-99 | in this filesystem model (no permissions, read-only mounts or full disks), the call fails iff a write is due and a file blocks the directories, or the target is a directory or the root |
| Plugin.WriteIfChangedFirstRun | src/index.ts:89-99 | with no previous file and no file blocking its directories, the call writes the file with the new content |
| Plugin.WriteIfChangedIdempotent | src/index.ts:89-99 | repeating a successful write of the same content writes nothing |
| Plugin.GenerateIdempotent | src/index.ts:70-100 | a second generator call with an unchanged listing performs no write |
| Plugin.WriteIfChangedFrame | src/index.ts:95-99 | apart from the target no entry changes; the only new entries are the target and its missing ancestor directories |
| Plugin.WriteIfChangedFailureKeepsTarget | src/index.ts:95-99 | a failed call leaves the previous generated file as it was |
| Plugin.WriteIfChangedWellFormed | src/index.ts:97-98 | the change-detecting write keeps the filesystem well formed |
| Plugin.ExistingFileIsWritable | src/index.ts:95-98 | in this filesystem model (no permissions, read-only mounts or full disks), a file already at the target can always be rewritten |
| Plugin.ChangedIconsChangeContents | src/index.ts:71-87 | a changed identifier list always renders a different file text |
| Plugin.ChangedIconsAreWritten | src/index.ts:81-99 | a changed identifier list always gives a different file, so it is always written |
| Plugin.ChangedFileRewritten | src/index.ts:89-99 | a file at the target holding other text is rewritten with the new text, and the filesystem stays well formed |
| Plugin.AddThenRemoveIcon | src/index.ts:70-100 | adding `<id>.svg` writes a file with `id` appended; removing it writes the earlier file back |
| Plugin.SvgSpriteSheetPlugin.constructor | src/index.ts:27-34 | the options are the resolved options; the sprite-loader plug-in gets the resolved sprite-loader options |
| Plugin.SvgSpriteSheetPlugin.GenerateIconTypeFile | src/index.ts:70-100 | the outcome and the new filesystem are exactly `Generate` of the old filesystem and the inputs |

## Left out

- `apply` and the webpack wiring (`thisCompilation`, `processAssets`, `contextDependencies`, src/index.ts:36-61): it is host-lifecycle glue over webpack, which is not part of this model.
- The sprite-loader plug-in (src/index.ts:33, 41) is a third-party component. It is kept only as a record of the options it is built with. Its options other than `plainSprite` are an opaque map.
- `readdirSync`, `path.resolve`, `path.relative` and `path.dirname` on strings: Node library calls. Their results are inputs: the listing (or `None` when it throws), the raw relative string, and the target as a list of segments.
- The error kind of a failed `readdirSync` is always `NoSuchEntry`. The model does not tell a missing icons directory from one that is not a directory.
- `Fs.ReadFile`: permission and encoding failures are not modelled. The source treats every read failure as "no previous content" (src/index.ts:90-94), as the model does for a missing path and for a directory.
- Exceptions are modelled as a `Failed` outcome carrying the error, not as a throw.
- Text is a sequence of characters. The UTF-8 encoding of the written file is not modelled.
- Fs.Mkdirp: permissions, read-only mounts and full disks are not modelled, so creating directories fails only for structural reasons (a file in the way).
- Fs.WriteFile: permissions, read-only mounts and full disks are not modelled, so a write fails only for structural reasons (a directory at the path, a file or a missing directory on the way). Its error kind follows Node's root-first walk only on a well-formed filesystem.
- IconTypeRender.RenderInjective: requires the identifiers and the prefix to hold no line break, although real file names may contain one.
- Plugin.ChangedIconsChangeContents: requires the names and the relative path to hold no line break, although real file names may contain one.
- Plugin.ChangedIconsAreWritten: requires the names and the relative path to hold no line break, although real file names may contain one.
- Plugin.AddThenRemoveIcon: requires the names, the added identifier and the relative path to hold no line break, although real file names may contain one.
