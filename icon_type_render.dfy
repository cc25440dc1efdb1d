/**
 * Rendering of the generated TypeScript file: one side-effect import per
 * icon, a blank line, the `IconType` union of the quoted identifiers, and a
 * fixed two-line trailer.
 */
module IconTypeRender {
  import opened Strings

  const TYPE_HEAD: string := "type IconType = "
  const UNION_INDENT: string := "    | "
  /** `export default IconType;` */
  const EXPORT_DEFAULT: string := "export " + "default " + "IconType;"
  /** `export function loadSvgIcons(){/*dummy function*/}` */
  const LOAD_SVG_ICONS: string := "export " + "function " + "loadSvgIcons" + "()" + "{/*dummy " + "function*/}"

  /** `import "<prefix>/<id>.svg";` */
  function ImportLine(prefix: string, id: string): string
  {
    "import \"" + prefix + "/" + id + ".svg\";"
  }

  function ImportLines(prefix: string, ids: seq<string>): seq<string>
  {
    seq(|ids|, k requires 0 <= k < |ids| => ImportLine(prefix, ids[k]))
  }

  function Quote(id: string): string
  {
    "\"" + id + "\""
  }

  function QuotedIds(ids: seq<string>): seq<string>
  {
    seq(|ids|, k requires 0 <= k < |ids| => Quote(ids[k]))
  }

  /** `icons.map(i => import line).join("\n")` */
  function ImportBlock(prefix: string, ids: seq<string>): string
  {
    Join(ImportLines(prefix, ids), "\n")
  }

  /** `icons.map(i => '"' + i + '"').join("\n    | ")` */
  function UnionText(ids: seq<string>): string
  {
    Join(QuotedIds(ids), "\n" + UNION_INDENT)
  }

  /** `type IconType = <union>;` */
  function TypeDeclaration(ids: seq<string>): string
  {
    TYPE_HEAD + UnionText(ids) + ";"
  }

  /** The whole generated file, as the template literal builds it, line break by line break. */
  function Render(prefix: string, ids: seq<string>): string
  {
    ImportBlock(prefix, ids) + "\n" + "\n" + TypeDeclaration(ids) + "\n" + EXPORT_DEFAULT + "\n" + LOAD_SVG_ICONS
  }

  /**
   * The lines of the generated file, stated independently of how it is built:
   * the import lines (a single empty line when there are none), a blank line,
   * the type declaration with one alternative per line (`type IconType = ;`
   * when there are none), and the two trailer lines.
   */
  function GeneratedLines(prefix: string, ids: seq<string>): seq<string>
  {
    (if |ids| == 0 then [""] else ImportLines(prefix, ids))
    + [""]
    + FramedPieces(TYPE_HEAD, UNION_INDENT, QuotedIds(ids), ";")
    + [EXPORT_DEFAULT, LOAD_SVG_ICONS]
  }

  predicate NoNewlines(ids: seq<string>)
  {
    forall k :: 0 <= k < |ids| ==> '\n' !in ids[k]
  }

  lemma ImportLinesHaveNoNewline(prefix: string, ids: seq<string>)
    requires '\n' !in prefix && NoNewlines(ids)
    ensures NoNewlines(ImportLines(prefix, ids))
  {
    forall k | 0 <= k < |ids| ensures '\n' !in ImportLine(prefix, ids[k]) {
      assert '\n' !in "import \"" && '\n' !in "/" && '\n' !in ".svg\";";
    }
  }

  /** The import block is exactly one line per identifier, in order. */
  lemma ImportBlockLines(prefix: string, ids: seq<string>)
    requires '\n' !in prefix && NoNewlines(ids)
    ensures |ids| == 0 ==> ImportBlock(prefix, ids) == ""
    ensures |ids| > 0 ==> Lines(ImportBlock(prefix, ids)) == ImportLines(prefix, ids)
  {
    if |ids| > 0 {
      ImportLinesHaveNoNewline(prefix, ids);
      assert "\n" == ['\n'];
      SplitJoin(ImportLines(prefix, ids), '\n');
    }
  }

  /** The type declaration spreads over one line per alternative. */
  lemma TypeDeclarationLines(ids: seq<string>)
    requires NoNewlines(ids)
    ensures Lines(TypeDeclaration(ids)) == FramedPieces(TYPE_HEAD, UNION_INDENT, QuotedIds(ids), ";")
  {
    var quoted := QuotedIds(ids);
    forall k | 0 <= k < |quoted| ensures '\n' !in quoted[k] {
      assert '\n' !in "\"";
    }
    assert "\n" + UNION_INDENT == ['\n'] + UNION_INDENT;
    assert '\n' !in TYPE_HEAD && '\n' !in UNION_INDENT && '\n' !in ";";
    SplitFramedJoin(TYPE_HEAD, UNION_INDENT, quoted, ";", '\n');
  }

  /** A text of the template's shape splits into the lines of its parts. */
  lemma SplitRendered(imports: string, decl: string, exportLine: string, loadLine: string)
    requires '\n' !in exportLine && '\n' !in loadLine
    ensures Lines(imports + "\n" + "\n" + decl + "\n" + exportLine + "\n" + loadLine)
         == Lines(imports) + [""] + Lines(decl) + [exportLine, loadLine]
  {
    var nl := '\n';
    assert "\n" == [nl];
    var withBlank := imports + [nl];
    var throughDecl := withBlank + [nl] + decl;
    var throughExport := throughDecl + [nl] + exportLine;
    SplitConcat(throughExport, nl, loadLine);
    SplitWithoutSeparator(loadLine, nl);
    SplitConcat(throughDecl, nl, exportLine);
    SplitWithoutSeparator(exportLine, nl);
    SplitConcat(withBlank, nl, decl);
    assert withBlank == imports + [nl] + "";
    SplitConcat(imports, nl, "");
  }

  lemma TrailerHasNoNewline()
    ensures '\n' !in EXPORT_DEFAULT && '\n' !in LOAD_SVG_ICONS
  {
    assert '\n' !in "export ";
    assert '\n' !in "default ";
    assert '\n' !in "IconType;";
    assert '\n' !in "function ";
    assert '\n' !in "loadSvgIcons";
    assert '\n' !in "()";
    assert '\n' !in "{/*dummy ";
    assert '\n' !in "function*/}";
  }

  /** The generated file has exactly the lines that `GeneratedLines` lists. */
  lemma RenderLines(prefix: string, ids: seq<string>)
    requires '\n' !in prefix && NoNewlines(ids)
    ensures Lines(Render(prefix, ids)) == GeneratedLines(prefix, ids)
  {
    TrailerHasNoNewline();
    SplitRendered(ImportBlock(prefix, ids), TypeDeclaration(ids), EXPORT_DEFAULT, LOAD_SVG_ICONS);
    ImportBlockLines(prefix, ids);
    TypeDeclarationLines(ids);
  }

  /** With no icons there are no imports and the union has no alternatives: `type IconType = ;`. */
  lemma RenderNoIcons(prefix: string)
    requires '\n' !in prefix
    ensures Lines(Render(prefix, [])) == ["", "", "type IconType = ;", EXPORT_DEFAULT, LOAD_SVG_ICONS]
  {
    RenderLines(prefix, []);
    assert TYPE_HEAD + ";" == "type IconType = ;";
    assert FramedPieces(TYPE_HEAD, UNION_INDENT, [], ";") == [TYPE_HEAD + ";"];
  }

  lemma GeneratedLinesTwoIcons()
    ensures GeneratedLines("./icons", ["a", "b"]) ==
      [ "import \"./icons/a.svg\";", "import \"./icons/b.svg\";", "",
        "type IconType = \"a\"", "    | \"b\";", EXPORT_DEFAULT, LOAD_SVG_ICONS ]
  {
    var ids := ["a", "b"];
    assert ImportLines("./icons", ids) == ["import \"./icons/a.svg\";", "import \"./icons/b.svg\";"] by {
      assert ImportLine("./icons", "a") == "import \"./icons/a.svg\";";
      assert ImportLine("./icons", "b") == "import \"./icons/b.svg\";";
    }
    var decl := FramedPieces(TYPE_HEAD, UNION_INDENT, QuotedIds(ids), ";");
    assert decl == ["type IconType = \"a\"", "    | \"b\";"] by {
      assert QuotedIds(ids) == [Quote("a"), Quote("b")];
      assert |decl| == 2;
      assert decl[0] == TYPE_HEAD + Quote("a") + "" == "type IconType = \"a\"";
      assert decl[1] == UNION_INDENT + Quote("b") + ";" == "    | \"b\";";
    }
  }

  /** Two icons `a` and `b`: two imports and the alternatives `"a" | "b"`, in listing order. */
  lemma RenderTwoIcons()
    ensures Lines(Render("./icons", ["a", "b"])) ==
      [ "import \"./icons/a.svg\";", "import \"./icons/b.svg\";", "",
        "type IconType = \"a\"", "    | \"b\";", EXPORT_DEFAULT, LOAD_SVG_ICONS ]
  {
    assert NoNewlines(["a", "b"]);
    RenderLines("./icons", ["a", "b"]);
    GeneratedLinesTwoIcons();
  }

  lemma ImportLineInjective(prefix: string, x: string, y: string)
    requires ImportLine(prefix, x) == ImportLine(prefix, y)
    ensures x == y
  {
    var head := "import \"" + prefix + "/";
    var tail := ".svg\";";
    assert ImportLine(prefix, x) == head + x + tail;
    assert ImportLine(prefix, y) == head + y + tail;
    assert |x| == |y|;
    assert x == (head + x + tail)[|head|..|head| + |x|];
    assert y == (head + y + tail)[|head|..|head| + |y|];
  }

  /**
   * The first lines are the imports, which are never empty; with no icons the
   * first line is empty; after the imports come one blank line, one line per
   * alternative and the two trailer lines.
   */
  lemma GeneratedLinesShape(prefix: string, ids: seq<string>)
    ensures |ids| == 0 ==> GeneratedLines(prefix, ids)[0] == ""
    ensures |ids| > 0 ==> |GeneratedLines(prefix, ids)| == 2 * |ids| + 3
    ensures forall k :: 0 <= k < |ids| ==>
              GeneratedLines(prefix, ids)[k] == ImportLine(prefix, ids[k]) && ImportLine(prefix, ids[k]) != ""
  {
    var lines := GeneratedLines(prefix, ids);
    var imports := ImportLines(prefix, ids);
    if |ids| > 0 {
      assert lines == imports + ([""] + FramedPieces(TYPE_HEAD, UNION_INDENT, QuotedIds(ids), ";") + [EXPORT_DEFAULT, LOAD_SVG_ICONS]);
      forall k | 0 <= k < |ids| ensures lines[k] == ImportLine(prefix, ids[k]) && ImportLine(prefix, ids[k]) != "" {
        assert lines[k] == imports[k];
        assert ImportLine(prefix, ids[k])[0] == 'i';
      }
    }
  }

  /** Different identifier lists never render to the same file (for a fixed prefix). */
  lemma RenderInjective(prefix: string, ids1: seq<string>, ids2: seq<string>)
    requires '\n' !in prefix && NoNewlines(ids1) && NoNewlines(ids2)
    requires Render(prefix, ids1) == Render(prefix, ids2)
    ensures ids1 == ids2
  {
    RenderLines(prefix, ids1);
    RenderLines(prefix, ids2);
    GeneratedLinesShape(prefix, ids1);
    GeneratedLinesShape(prefix, ids2);
    var lines := GeneratedLines(prefix, ids1);
    assert lines == GeneratedLines(prefix, ids2);
    if |ids1| > 0 && |ids2| > 0 {
      assert |ids1| == |ids2|;
      forall k | 0 <= k < |ids1| ensures ids1[k] == ids2[k] {
        ImportLineInjective(prefix, ids1[k], ids2[k]);
      }
    }
  }

  /** Moving the generated file changes only the import lines, never the identifiers' type lines. */
  lemma RenderPrefixOnlyAffectsImports(prefix1: string, prefix2: string, ids: seq<string>)
    requires '\n' !in prefix1 && '\n' !in prefix2 && NoNewlines(ids)
    ensures |Lines(Render(prefix1, ids))| == |Lines(Render(prefix2, ids))|
    ensures forall k :: |ids| <= k < |Lines(Render(prefix1, ids))| ==>
              Lines(Render(prefix1, ids))[k] == Lines(Render(prefix2, ids))[k]
  {
    RenderLines(prefix1, ids);
    RenderLines(prefix2, ids);
  }
}
