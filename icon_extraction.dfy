/**
 * Identifier extraction: from the names in a recursive directory listing, in
 * traversal order, keep those ending in ".svg" and drop that suffix.
 */
module IconExtraction {

  /** The recognised icon extension; the match is exact and case-sensitive. */
  const SVG_EXTENSION: string := ".svg"

  /** `name.endsWith(".svg")`. */
  predicate HasSvgSuffix(name: string)
  {
    |name| >= |SVG_EXTENSION| && name[|name| - |SVG_EXTENSION|..] == SVG_EXTENSION
  }

  /** `name.substring(0, name.length - ".svg".length)` for a name that ends in ".svg". */
  function StripSvgSuffix(name: string): (id: string)
    requires HasSvgSuffix(name)
    ensures id + SVG_EXTENSION == name
    ensures |id| == |name| - 4
  {
    name[..|name| - |SVG_EXTENSION|]
  }

  /** The identifiers pushed by the extraction loop after it has seen `names`. */
  function IconIds(names: seq<string>): seq<string>
  {
    if names == [] then []
    else
      var last := names[|names| - 1];
      IconIds(names[..|names| - 1]) + (if HasSvgSuffix(last) then [StripSvgSuffix(last)] else [])
  }

  /** How many names in the listing end in ".svg". */
  function SvgCount(names: seq<string>): nat
  {
    if names == [] then 0
    else SvgCount(names[..|names| - 1]) + (if HasSvgSuffix(names[|names| - 1]) then 1 else 0)
  }

  /** One more name in the listing adds its identifier at the end, if it has one. */
  lemma IconIdsSnoc(names: seq<string>, name: string)
    ensures IconIds(names + [name]) == IconIds(names) + (if HasSvgSuffix(name) then [StripSvgSuffix(name)] else [])
  {
    assert (names + [name])[..|names|] == names;
  }

  /** There is exactly one identifier per ".svg" name. */
  lemma {:induction false} IconIdsLength(names: seq<string>)
    ensures |IconIds(names)| == SvgCount(names)
  {
    if names != [] {
      IconIdsLength(names[..|names| - 1]);
    }
  }

  /**
   * The identifier of the ".svg" name at position `j` stands at the position
   * given by the number of ".svg" names before it.
   */
  lemma IconIdAtEntry(names: seq<string>, j: nat)
    requires j < |names| && HasSvgSuffix(names[j])
    ensures SvgCount(names[..j]) < |IconIds(names)|
    ensures IconIds(names)[SvgCount(names[..j])] == StripSvgSuffix(names[j])
  {
    var before, after := names[..j], names[j + 1..];
    assert names == before + [names[j]] + after;
    IconIdsAppend(before + [names[j]], after);
    IconIdsSnoc(before, names[j]);
    IconIdsLength(before);
  }

  /** A ".svg" name's identifier comes before those of the ".svg" names after it: traversal order is kept. */
  lemma EntryOrderKept(names: seq<string>, j: nat, later: nat)
    requires j < later <= |names| && HasSvgSuffix(names[j])
    ensures SvgCount(names[..j]) < SvgCount(names[..later])
  {
    var before, between := names[..j], names[j + 1..later];
    assert names[..later] == before + [names[j]] + between;
    IconIdsAppend(before + [names[j]], between);
    IconIdsSnoc(before, names[j]);
    IconIdsLength(before);
    IconIdsLength(names[..later]);
  }

  /** Every identifier comes from a listed ".svg" name, and every such name yields one. */
  lemma {:induction false} IconIdsCharacterised(names: seq<string>)
    ensures forall id :: id in IconIds(names) ==> id + SVG_EXTENSION in names
    ensures forall j :: 0 <= j < |names| && HasSvgSuffix(names[j]) ==> StripSvgSuffix(names[j]) in IconIds(names)
  {
    if names != [] {
      var n := |names| - 1;
      var front := names[..n];
      IconIdsCharacterised(front);
      assert front + [names[n]] == names;
      IconIdsSnoc(front, names[n]);
      forall id | id in IconIds(names) ensures id + SVG_EXTENSION in names {
        if id in IconIds(front) {
          var j :| 0 <= j < |front| && front[j] == id + SVG_EXTENSION;
          assert names[j] == front[j];
        } else {
          assert names[n] == id + SVG_EXTENSION;
        }
      }
      forall j | 0 <= j < |names| && HasSvgSuffix(names[j]) ensures StripSvgSuffix(names[j]) in IconIds(names) {
        if j < n {
          assert front[j] == names[j];
        }
      }
    }
  }

  /** Extraction over a concatenated listing is the concatenation of the extractions. */
  lemma {:induction false} IconIdsAppend(a: seq<string>, b: seq<string>)
    ensures IconIds(a + b) == IconIds(a) + IconIds(b)
    decreases |b|
  {
    if b == [] {
      assert a + b == a;
    } else {
      var n := |b| - 1;
      assert (a + b)[..|a + b| - 1] == a + b[..n];
      assert (a + b)[|a + b| - 1] == b[n];
      IconIdsAppend(a, b[..n]);
    }
  }

  /** A name that does not end in ".svg" contributes nothing, wherever it stands. */
  lemma NonSvgNameIgnored(a: seq<string>, name: string, b: seq<string>)
    requires !HasSvgSuffix(name)
    ensures IconIds(a + [name] + b) == IconIds(a + b)
  {
    IconIdsAppend(a + [name], b);
    IconIdsAppend(a, [name]);
    IconIdsAppend(a, b);
    assert [name][..0] == [];
  }

  /** An ".svg" name appended to the listing appends its identifier, even when it repeats one. */
  lemma AddedIconAppended(names: seq<string>, id: string)
    ensures IconIds(names + [id + SVG_EXTENSION]) == IconIds(names) + [id]
  {
    var name := id + SVG_EXTENSION;
    assert name[|name| - 4..] == SVG_EXTENSION;
    assert StripSvgSuffix(name) == id;
    IconIdsSnoc(names, name);
  }

  /** Naming each identifier `<id>.svg` and extracting gives the identifiers back, duplicates and order included. */
  lemma {:induction false} ExtractNamedIcons(ids: seq<string>)
    ensures IconIds(seq(|ids|, k requires 0 <= k < |ids| => ids[k] + SVG_EXTENSION)) == ids
    decreases |ids|
  {
    var named := seq(|ids|, k requires 0 <= k < |ids| => ids[k] + SVG_EXTENSION);
    if ids != [] {
      var n := |ids| - 1;
      var front := seq(n, k requires 0 <= k < n => ids[..n][k] + SVG_EXTENSION);
      ExtractNamedIcons(ids[..n]);
      assert named == front + [ids[n] + SVG_EXTENSION];
      AddedIconAppended(front, ids[n]);
      assert ids[..n] + [ids[n]] == ids;
    }
  }

  /**
   * The suffix test is exact: an upper-case ".SVG" or ".svg" inside the name
   * contributes nothing, and a name that is only ".svg" gives the empty identifier.
   */
  lemma ExtractionEdgeCases(id: string)
    ensures IconIds([id + ".SVG"]) == []
    ensures IconIds([id + ".svg.bak"]) == []
    ensures IconIds([".svg"]) == [""]
  {
    var upper, backup := id + ".SVG", id + ".svg.bak";
    assert upper[|upper| - 4..] == ".SVG";
    assert ".SVG"[1] != SVG_EXTENSION[1];
    assert backup[|backup| - 4..] == ".bak";
    assert ".bak"[1] != SVG_EXTENSION[1];
    IconIdsSnoc([], upper);
    IconIdsSnoc([], backup);
    IconIdsSnoc([], ".svg");
  }

  /** The extraction loop: walk the listing, pushing each ".svg" name without its suffix. */
  method ExtractIcons(names: seq<string>) returns (icons: seq<string>)
    ensures icons == IconIds(names)
  {
    icons := [];
    for i := 0 to |names|
      invariant icons == IconIds(names[..i])
    {
      var name := names[i];
      assert names[..i + 1] == names[..i] + [name];
      IconIdsSnoc(names[..i], name);
      if HasSvgSuffix(name) {
        icons := icons + [StripSvgSuffix(name)];
      }
    }
    assert names[..|names|] == names;
  }
}
