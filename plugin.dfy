/**
 * The plug-in: option defaulting at construction, and the generator that
 * lists the icons, renders the icon-type file and writes it only when its
 * content changes.
 */
module Plugin {
  import opened Wrappers
  import opened Fs
  import opened IconExtraction
  import opened RelativePrefix
  import opened IconTypeRender

  /** The options handed through to the sprite-loader plug-in; only `plainSprite` is named. */
  datatype SpriteLoaderOptions = SpriteLoaderOptions(plainSprite: Option<bool>, passThrough: map<string, string>)

  /** The options object given to the constructor; an absent property is `None`. */
  datatype PluginOptions = PluginOptions(
    iconsDir: Option<string>,
    iconTypeFile: Option<string>,
    spriteLoaderOptions: Option<SpriteLoaderOptions>)

  /** Every option with a value. */
  datatype ResolvedOptions = ResolvedOptions(
    iconsDir: string,
    iconTypeFile: string,
    spriteLoaderOptions: SpriteLoaderOptions)

  /** The sprite-loader plug-in, known here only by the options it was built with. */
  datatype SpriteLoaderPlugin = SpriteLoaderPlugin(options: SpriteLoaderOptions)

  const DEFAULT_ICONS_DIR: string := "./icons"
  const DEFAULT_ICON_TYPE_FILE: string := "./src/components/common/IconType.ts"
  const DEFAULT_SPRITE_LOADER_OPTIONS: SpriteLoaderOptions := SpriteLoaderOptions(Some(true), map[])

  /** JavaScript truthiness of an optional string: present and not empty. */
  predicate Truthy(s: Option<string>)
  {
    s.Some? && s.value != ""
  }

  /** `value || fallback` for an optional string. */
  function OrElse(value: Option<string>, fallback: string): string
  {
    if Truthy(value) then value.value else fallback
  }

  /** The constructor's defaulting; no argument at all is the empty options object. */
  function ResolveOptions(given: Option<PluginOptions>): (r: ResolvedOptions)
    ensures r.iconsDir != "" && r.iconTypeFile != ""
    ensures given.None? ==>
              r == ResolvedOptions(DEFAULT_ICONS_DIR, DEFAULT_ICON_TYPE_FILE, DEFAULT_SPRITE_LOADER_OPTIONS)
    ensures given.Some? ==>
              && r.iconsDir == (if Truthy(given.value.iconsDir) then given.value.iconsDir.value else DEFAULT_ICONS_DIR)
              && r.iconTypeFile == (if Truthy(given.value.iconTypeFile) then given.value.iconTypeFile.value
                                    else DEFAULT_ICON_TYPE_FILE)
              && r.spriteLoaderOptions == (if given.value.spriteLoaderOptions.Some?
                                           then given.value.spriteLoaderOptions.value
                                           else DEFAULT_SPRITE_LOADER_OPTIONS)
  {
    var options := if given.Some? then given.value else PluginOptions(None, None, None);
    ResolvedOptions(
      OrElse(options.iconsDir, DEFAULT_ICONS_DIR),
      OrElse(options.iconTypeFile, DEFAULT_ICON_TYPE_FILE),
      if options.spriteLoaderOptions.Some? then options.spriteLoaderOptions.value
      else DEFAULT_SPRITE_LOADER_OPTIONS)
  }

  /** Passing resolved options back in changes none of them. */
  lemma ResolveOptionsIdempotent(given: Option<PluginOptions>)
    ensures var r := ResolveOptions(given);
            ResolveOptions(Some(PluginOptions(Some(r.iconsDir), Some(r.iconTypeFile), Some(r.spriteLoaderOptions)))) == r
  {
  }

  /** What one call of the generator did. */
  datatype Outcome = Unchanged | Written | Failed(error: FsError)

  /** The outcome of a call and the filesystem after it. */
  datatype Generation = Generation(outcome: Outcome, tree: Tree)

  /** The text generated for a listing and the raw relative path to the icons. */
  function IconTypeContents(names: seq<string>, relative: string): string
  {
    Render(NormalizePrefix(relative), IconIds(names))
  }

  /**
   * The change-detecting write: read the old file (any failure reads as no
   * content) and, when it is not `content`, create the target's directories
   * and write the file.
   */
  function WriteIfChanged(t: Tree, target: Path, content: string): Generation
  {
    if ReadFile(t, target) == Some(content) then Generation(Unchanged, t)
    else
      match Mkdirp(t, Dirname(target))
      case Failure(e) => Generation(Failed(e), t)
      case Success(withDirs) =>
        match WriteFile(withDirs, target, content)
        case Failure(e) => Generation(Failed(e), withDirs)
        case Success(written) => Generation(Written, written)
  }

  /**
   * One call of the generator on filesystem `t`: `listing` is what the
   * recursive `readdirSync` of the icons directory gave (None when it threw),
   * `target` the absolute path of the icon-type file, and `relative` what
   * `path.relative` gave from the target's directory to the icons directory.
   */
  function Generate(t: Tree, listing: Option<seq<string>>, target: Path, relative: string): Generation
  {
    if listing.None? then Generation(Failed(NoSuchEntry), t)
    else WriteIfChanged(t, target, IconTypeContents(listing.value, relative))
  }

  /** A listing that cannot be read fails the call before anything is touched. */
  lemma GenerateWithoutListing(t: Tree, target: Path, relative: string)
    ensures Generate(t, None, target, relative) == Generation(Failed(NoSuchEntry), t)
  {
  }

  /**
   * The write happens exactly when the old file is missing, unreadable or
   * different; no write leaves the filesystem as it was; a call that does not
   * fail leaves the target holding exactly the new content.
   */
  lemma WriteIfChangedWritesIffDifferent(t: Tree, target: Path, content: string)
    ensures var g := WriteIfChanged(t, target, content);
            && (g.outcome == Unchanged <==> ReadFile(t, target) == Some(content))
            && (g.outcome == Unchanged ==> g.tree == t)
            && (!g.outcome.Failed? ==> ReadFile(g.tree, target) == Some(content))
  {
  }

  /** The call fails exactly when a write is due and the target's directory or the target cannot take it. */
  lemma WriteIfChangedFailsIff(t: Tree, target: Path, content: string)
    ensures WriteIfChanged(t, target, content).outcome.Failed? <==>
              && ReadFile(t, target) != Some(content)
              && (target == [] || BlockedByFile(t, Dirname(target)) || (target in t && t[target].Dir?))
  {
    if ReadFile(t, target) != Some(content) && target != [] && !BlockedByFile(t, Dirname(target)) {
      MkdirpPreparesParent(t, target);
    }
  }

  /** The first run, with no file yet, creates it with the new content. */
  lemma WriteIfChangedFirstRun(t: Tree, target: Path, content: string)
    requires target != [] && target !in t && !BlockedByFile(t, Dirname(target))
    ensures var g := WriteIfChanged(t, target, content);
            g.outcome == Written && ReadFile(g.tree, target) == Some(content)
  {
    WriteIfChangedFailsIff(t, target, content);
  }

  /** Writing the same content again does nothing. */
  lemma WriteIfChangedIdempotent(t: Tree, target: Path, content: string)
    requires !WriteIfChanged(t, target, content).outcome.Failed?
    ensures var after := WriteIfChanged(t, target, content).tree;
            WriteIfChanged(after, target, content) == Generation(Unchanged, after)
  {
    WriteIfChangedWritesIffDifferent(t, target, content);
  }

  /** A second generator call with an unchanged listing writes nothing. */
  lemma GenerateIdempotent(t: Tree, listing: Option<seq<string>>, target: Path, relative: string)
    requires !Generate(t, listing, target, relative).outcome.Failed?
    ensures var after := Generate(t, listing, target, relative).tree;
            Generate(after, listing, target, relative) == Generation(Unchanged, after)
  {
    WriteIfChangedIdempotent(t, target, IconTypeContents(listing.value, relative));
  }

  /**
   * Apart from the target, entries keep their values, and the only new
   * entries are the target and directories on the way to it.
   */
  lemma WriteIfChangedFrame(t: Tree, target: Path, content: string)
    ensures var g := WriteIfChanged(t, target, content);
            && (forall q :: q in t && q != target ==> q in g.tree && g.tree[q] == t[q])
            && (forall q :: q in g.tree && q !in t ==>
                  q == target || (q in Ancestors(Dirname(target)) && g.tree[q] == Dir))
  {
  }

  /** A failed call leaves the previous icon-type file as it was. */
  lemma WriteIfChangedFailureKeepsTarget(t: Tree, target: Path, content: string)
    requires WriteIfChanged(t, target, content).outcome.Failed?
    ensures var g := WriteIfChanged(t, target, content);
            (target in g.tree <==> target in t) && (target in t ==> g.tree[target] == t[target])
  {
    assert target !in Ancestors(Dirname(target));
  }

  /** The change-detecting write keeps the filesystem well formed. */
  lemma WriteIfChangedWellFormed(t: Tree, target: Path, content: string)
    requires WellFormed(t)
    ensures WellFormed(WriteIfChanged(t, target, content).tree)
  {
    var dir := Dirname(target);
    if ReadFile(t, target) != Some(content) && Mkdirp(t, dir).Success? {
      var withDirs := Mkdirp(t, dir).value;
      MkdirpWellFormed(t, dir);
      if WriteFile(withDirs, target, content).Success? {
        forall k | 1 <= k < |target| ensures target[..k] in withDirs && withDirs[target[..k]].Dir? {
          assert target[..k] == dir[..k];
        }
        WriteFileWellFormed(withDirs, target, content);
      }
    }
  }

  /** With a file already at the target of a well-formed filesystem, the call cannot fail. */
  lemma ExistingFileIsWritable(t: Tree, target: Path, content: string)
    requires WellFormed(t) && target in t && t[target].File?
    ensures !WriteIfChanged(t, target, content).outcome.Failed?
  {
    var dir := Dirname(target);
    forall k | 1 <= k <= |dir| ensures dir[..k] in t && t[dir[..k]].Dir? {
      assert dir[..k] == target[..k];
    }
    WriteIfChangedFailsIff(t, target, content);
  }

  lemma IconIdsNoNewlines(names: seq<string>)
    requires NoNewlines(names)
    ensures NoNewlines(IconIds(names))
  {
    var ids := IconIds(names);
    IconIdsCharacterised(names);
    forall k | 0 <= k < |ids| ensures '\n' !in ids[k] {
      assert ids[k] in ids;
      var j :| 0 <= j < |names| && names[j] == ids[k] + SVG_EXTENSION;
      assert forall c :: c in ids[k] ==> c in names[j];
    }
  }

  /** Naming one more icon `<id>.svg` brings no line break into the listing. */
  lemma SvgNameNoNewlines(names: seq<string>, id: string)
    requires NoNewlines(names) && '\n' !in id
    ensures NoNewlines(names + [id + SVG_EXTENSION])
  {
    var name := id + SVG_EXTENSION;
    forall k | 0 <= k < |name| ensures name[k] != '\n' {
      if k >= |id| {
        assert name[k] == SVG_EXTENSION[k - |id|];
      }
    }
    var more := names + [name];
    forall k | 0 <= k < |more| ensures '\n' !in more[k] {
      if k < |names| {
        assert more[k] == names[k];
      }
    }
  }

  /** A changed identifier list always renders a different file. */
  lemma ChangedIconsChangeContents(before: seq<string>, after: seq<string>, relative: string)
    requires NoNewlines(before) && NoNewlines(after) && '\n' !in relative
    requires IconIds(before) != IconIds(after)
    ensures IconTypeContents(before, relative) != IconTypeContents(after, relative)
  {
    IconIdsNoNewlines(before);
    IconIdsNoNewlines(after);
    var prefix := NormalizePrefix(relative);
    if Render(prefix, IconIds(before)) == Render(prefix, IconIds(after)) {
      RenderInjective(prefix, IconIds(before), IconIds(after));
    }
  }

  /** A changed set of identifiers always gives a different file, so it is always written. */
  lemma ChangedIconsAreWritten(t: Tree, before: seq<string>, after: seq<string>, target: Path, relative: string)
    requires NoNewlines(before) && NoNewlines(after) && '\n' !in relative
    requires ReadFile(t, target) == Some(IconTypeContents(before, relative))
    requires IconIds(before) != IconIds(after)
    ensures Generate(t, Some(after), target, relative).outcome != Unchanged
  {
    ChangedIconsChangeContents(before, after, relative);
    WriteIfChangedWritesIffDifferent(t, target, IconTypeContents(after, relative));
  }

  /** Over a well-formed filesystem holding other text at the target, the new text is written. */
  lemma ChangedFileRewritten(t: Tree, target: Path, previous: string, content: string)
    requires WellFormed(t) && ReadFile(t, target) == Some(previous) && previous != content
    ensures var g := WriteIfChanged(t, target, content);
            g.outcome == Written && ReadFile(g.tree, target) == Some(content) && WellFormed(g.tree)
  {
    ExistingFileIsWritable(t, target, content);
    WriteIfChangedWritesIffDifferent(t, target, content);
    WriteIfChangedWellFormed(t, target, content);
  }

  /**
   * Adding `<id>.svg` to the icons and regenerating writes a file with the
   * new identifier; removing it again writes the earlier file back.
   */
  lemma AddThenRemoveIcon(t: Tree, names: seq<string>, id: string, target: Path, relative: string)
    requires WellFormed(t) && NoNewlines(names) && '\n' !in id && '\n' !in relative
    requires !Generate(t, Some(names), target, relative).outcome.Failed?
    ensures var first := Generate(t, Some(names), target, relative);
            var added := Generate(first.tree, Some(names + [id + SVG_EXTENSION]), target, relative);
            var removed := Generate(added.tree, Some(names), target, relative);
            && added.outcome == Written
            && IconIds(names + [id + SVG_EXTENSION]) == IconIds(names) + [id]
            && ReadFile(added.tree, target) == Some(IconTypeContents(names + [id + SVG_EXTENSION], relative))
            && removed.outcome == Written
            && ReadFile(removed.tree, target) == ReadFile(first.tree, target)
  {
    var more := names + [id + SVG_EXTENSION];
    var before, later := IconTypeContents(names, relative), IconTypeContents(more, relative);
    AddedIconAppended(names, id);
    SvgNameNoNewlines(names, id);
    assert |IconIds(more)| != |IconIds(names)|;
    ChangedIconsChangeContents(names, more, relative);
    var first := WriteIfChanged(t, target, before);
    WriteIfChangedWritesIffDifferent(t, target, before);
    WriteIfChangedWellFormed(t, target, before);
    ChangedFileRewritten(first.tree, target, before, later);
    var added := WriteIfChanged(first.tree, target, later);
    ChangedFileRewritten(added.tree, target, later, before);
  }

  class SvgSpriteSheetPlugin {
    const options: ResolvedOptions
    const spriteLoaderPlugin: SpriteLoaderPlugin

    /** `new SvgSpriteSheetPlugin(options)`; `None` is a call without an argument. */
    constructor (given: Option<PluginOptions>)
      ensures options == ResolveOptions(given)
      ensures spriteLoaderPlugin == SpriteLoaderPlugin(options.spriteLoaderOptions)
    {
      options := ResolveOptions(given);
      spriteLoaderPlugin := SpriteLoaderPlugin(ResolveOptions(given).spriteLoaderOptions);
    }

    /**
     * `generateIconTypeFile`: extract the identifiers, normalise the prefix,
     * render, read the old file and write only when it differs.
     */
    static method GenerateIconTypeFile(fs: FileSystem, listing: Option<seq<string>>, iconTypeAbs: Path, relative: string)
      returns (outcome: Outcome)
      modifies fs
      ensures Generation(outcome, fs.tree) == Generate(old(fs.tree), listing, iconTypeAbs, relative)
    {
      if listing.None? {
        return Failed(NoSuchEntry);
      }
      var icons := ExtractIcons(listing.value);
      var relativePrefix := ReplaceBackslashes(relative);
      if !StartsWithDot(relativePrefix) {
        relativePrefix := "./" + relativePrefix;
      }
      var newContents := Render(relativePrefix, icons);
      assert relativePrefix == NormalizePrefix(relative);
      assert newContents == IconTypeContents(listing.value, relative);
      ghost var before := fs.tree;
      var oldContents := fs.ReadFileSync(iconTypeAbs);
      assert oldContents == ReadFile(before, iconTypeAbs);
      if oldContents != Some(newContents) {
        var err := fs.MkdirSync(Dirname(iconTypeAbs));
        if err.Some? {
          return Failed(err.value);
        }
        err := fs.WriteFileSync(iconTypeAbs, newContents);
        if err.Some? {
          return Failed(err.value);
        }
        return Written;
      }
      return Unchanged;
    }
  }
}
