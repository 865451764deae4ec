/**
 * `modulePath(importer, module)` of the fast-check generator driver: the
 * import specifier the generated file `importer` uses for the runtime
 * module. Without a module it is the published runtime package; with one
 * it is the path from the importer's directory to the module's directory,
 * marked relative, then a '/', then the module's base name without `.ts`.
 * The working directory, against which `path.relative` resolves, is a
 * parameter.
 */
module Driver {
  import opened Wrappers
  import opened Text
  import opened PosixPath

  const RuntimeModule := "@smartlyio/oats"

  /** `!module`: no module, or the empty string. */
  predicate Falsy(moduleFile: Option<string>) {
    moduleFile.None? || moduleFile.value == ""
  }

  /** The directory part the driver puts before the '/': "." for the same directory, and a "./" unless the path starts with '.'. */
  function DirPart(rel: string): string {
    if rel == "" then "." else if rel[0] == '.' then rel else "./" + rel
  }

  /** The path from the importer's directory to the module's directory. */
  function ModuleDir(cwd: string, importer: string, moduleFile: string): string {
    Relative(cwd, Dirname(importer), Dirname(moduleFile))
  }

  /** The specifier `modulePath` returns, stated as its parts. */
  function Specifier(cwd: string, importer: string, moduleFile: Option<string>): string {
    if Falsy(moduleFile) then RuntimeModule
    else DirPart(ModuleDir(cwd, importer, moduleFile.value)) + "/" + Basename(moduleFile.value, ".ts")
  }

  /**
   * `modulePath` step by step, as the driver builds it: the relative
   * directory, then "./" unless it starts with '.', then '/' unless it ends
   * with one, then the base name without `.ts`.
   */
  method ModulePath(cwd: string, importer: string, moduleFile: Option<string>) returns (r: string)
    ensures Falsy(moduleFile) ==> r == RuntimeModule
    ensures !Falsy(moduleFile) ==> r == Specifier(cwd, importer, moduleFile)
    ensures !Falsy(moduleFile) ==> |r| > 0 && r[0] == '.'
  {
    if Falsy(moduleFile) {
      return RuntimeModule;
    }
    var m := moduleFile.value;
    var p := Relative(cwd, Dirname(importer), Dirname(m));
    RelativeHasNoEdgeSlash(cwd, Dirname(importer), Dirname(m));
    ghost var rel := p;
    if |p| == 0 || p[0] != '.' {
      p := "./" + p;
    }
    if p[|p| - 1] != '/' {
      p := p + "/";
    }
    assert p == DirPart(rel) + "/";
    p := p + Basename(m, ".ts");
    r := p;
  }

  /** Without a module the specifier is the runtime package. */
  lemma FalsyModuleIsRuntime(cwd: string, importer: string, moduleFile: Option<string>)
    requires Falsy(moduleFile)
    ensures Specifier(cwd, importer, moduleFile) == RuntimeModule
  {
  }

  /**
   * With a module the specifier starts with '.', keeps a relative
   * directory that already starts with '.', prefixes "./" otherwise, and
   * has exactly one '/' between the directory and the base name.
   */
  lemma SpecifierShape(cwd: string, importer: string, moduleFile: string)
    requires moduleFile != ""
    ensures var r, rel, base := Specifier(cwd, importer, Some(moduleFile)), ModuleDir(cwd, importer, moduleFile), Basename(moduleFile, ".ts");
      r[0] == '.' &&
      (rel != "" && rel[0] == '.' ==> r == rel + "/" + base) &&
      (rel != "" && rel[0] != '.' ==> r == "./" + rel + "/" + base) &&
      (rel == "" ==> r == "./" + base) &&
      DirPart(rel)[|DirPart(rel)| - 1] != '/'
  {
    var rel := ModuleDir(cwd, importer, moduleFile);
    RelativeHasNoEdgeSlash(cwd, Dirname(importer), Dirname(moduleFile));
    DirPartShape(rel);
    var r := Specifier(cwd, importer, Some(moduleFile));
    assert r == DirPart(rel) + "/" + Basename(moduleFile, ".ts");
    assert r[0] == DirPart(rel)[0];
    assert "." + "/" == "./";
  }

  /** The directory part of a path without a slash at either end starts with '.' and does not end with '/'. */
  lemma DirPartShape(rel: string)
    requires rel == "" || (rel[0] != '/' && rel[|rel| - 1] != '/')
    ensures var d := DirPart(rel); |d| > 0 && d[0] == '.' && d[|d| - 1] != '/'
  {
  }

  /** The base name of `d/name.ts` without `.ts` is `name`. */
  lemma TsBasename(d: string, name: string)
    requires name != "" && '/' !in name
    ensures Basename(d + "/" + name + ".ts", ".ts") == name
  {
    var m := d + "/" + name + ".ts";
    assert m == d + "/" + (name + ".ts");
    assert '/' !in ".ts";
    LastNameOfChild(d, name + ".ts");
    assert EndsWith(name + ".ts", ".ts") && (name + ".ts")[..|name|] == name;
    assert |m| > 3;
  }

  /** A module `d/name.ts` is imported by its name without the extension. */
  lemma TsExtensionStripped(cwd: string, importer: string, d: string, name: string)
    requires name != "" && '/' !in name
    ensures Specifier(cwd, importer, Some(d + "/" + name + ".ts"))
            == DirPart(ModuleDir(cwd, importer, d + "/" + name + ".ts")) + "/" + name
  {
    TsBasename(d, name);
  }

  /** A module whose base name does not end with `.ts` keeps its whole base name. */
  lemma OtherExtensionKept(cwd: string, importer: string, moduleFile: string)
    requires moduleFile != "" && moduleFile != ".ts" && !EndsWith(LastName(moduleFile), ".ts")
    ensures Specifier(cwd, importer, Some(moduleFile)) == DirPart(ModuleDir(cwd, importer, moduleFile)) + "/" + LastName(moduleFile)
  {
  }

  /** Only where the importer's directory resolves to matters. */
  lemma SameDirectorySameSpecifier(cwd: string, importer1: string, importer2: string, moduleFile: Option<string>)
    requires Resolve(cwd, Dirname(importer1)) == Resolve(cwd, Dirname(importer2))
    ensures Specifier(cwd, importer1, moduleFile) == Specifier(cwd, importer2, moduleFile)
  {
  }

  /** A module in the importer's own directory is imported as "./" and its base name. */
  lemma SiblingModule(cwd: string, importer: string, moduleFile: string)
    requires moduleFile != "" && Resolve(cwd, Dirname(importer)) == Resolve(cwd, Dirname(moduleFile))
    ensures Specifier(cwd, importer, Some(moduleFile)) == "./" + Basename(moduleFile, ".ts")
  {
    RelativeEmpty(cwd, Dirname(importer), Dirname(moduleFile));
    assert "." + "/" == "./";
  }

  /** A leading "./" adds the piece "." in front. */
  lemma DotSlashSplit(rel: string)
    ensures Split("./" + rel) == ["."] + Split(rel)
  {
    SplitSlash(".", rel);
    assert "./" + rel == "." + "/" + rel;
    SplitPrefix(".", "");
    assert "." + "" == ".";
  }

  /** Walking "." first changes nothing. */
  lemma WalkDot(dir: seq<string>, xs: seq<string>)
    ensures Walk(dir, ["."] + xs) == Walk(dir, xs)
  {
    assert (["."] + xs)[1..] == xs;
  }

  /** The directory part, walked from the importer's directory, arrives at the module's directory. */
  lemma DirPartArrives(cwd: string, importer: string, moduleFile: string)
    ensures Walk(Resolve(cwd, Dirname(importer)), Split(DirPart(ModuleDir(cwd, importer, moduleFile))))
            == Resolve(cwd, Dirname(moduleFile))
  {
    var from, to := Dirname(importer), Dirname(moduleFile);
    var rel := ModuleDir(cwd, importer, moduleFile);
    RelativeArrives(cwd, from, to);
    var start := Resolve(cwd, from);
    if rel == "" {
      RelativeEmpty(cwd, from, to);
      DotSlashSplit("");
      assert "./" + "" == "./";
      SplitPrefix(".", "");
      assert "." + "" == ".";
      WalkDot(start, []);
      assert ["."] + [] == ["."];
    } else if rel[0] != '.' {
      DotSlashSplit(rel);
      WalkDot(start, Split(rel));
    }
  }

  // ---------------------------------------------------------------- finding

  /** An import specifier that module resolution reads as a path rather than a package name. */
  predicate IsRelativeSpecifier(s: string) {
    StartsWith(s, "./") || StartsWith(s, "../") || s == "." || s == ".."
  }

  /** The relative directory and the base name for importer `d/file` and module `d/dotdir/name.ts`. */
  lemma ChildModuleParts(cwd: string, d: string, file: string, dotdir: string, name: string)
    requires |d| > 0 && d[|d| - 1] != '/'
    requires IsName(file) && IsName(dotdir) && name != "" && '/' !in name
    ensures ModuleDir(cwd, d + "/" + file, d + "/" + dotdir + "/" + name + ".ts") == dotdir
    ensures Basename(d + "/" + dotdir + "/" + name + ".ts", ".ts") == name
  {
    var m := d + "/" + dotdir + "/" + name + ".ts";
    DirnameOfChild(d, file);
    assert m == (d + "/" + dotdir) + "/" + (name + ".ts");
    assert '/' !in ".ts";
    DirnameOfChild(d + "/" + dotdir, name + ".ts");
    RelativeToChild(cwd, d, dotdir);
    TsBasename(d + "/" + dotdir, name);
  }

  /** `dotdir/name` for a directory name starting with '.' is neither `./…` nor `../…`. */
  lemma DotPathIsNotRelative(dotdir: string, name: string)
    requires IsName(dotdir) && dotdir[0] == '.'
    ensures !IsRelativeSpecifier(dotdir + "/" + name)
  {
    var r := dotdir + "/" + name;
    assert |dotdir| >= 2;
    assert r[1] == dotdir[1] && dotdir[1] in dotdir;
    assert r[..2] != "./";
    if |dotdir| == 2 {
      assert dotdir[1] != '.' by {
        assert dotdir == [dotdir[0], dotdir[1]];
      }
      assert r[..3] != "../";
    } else {
      assert r[2] == dotdir[2] && dotdir[2] in dotdir;
      assert r[..3] != "../";
    }
  }

  /**
   * As written, a module directory below the importer's whose name starts
   * with '.' is not prefixed: importer `d/file` and module
   * `d/dotdir/name.ts` (say `/p/gen.ts` and `/p/.lib/runtime.ts`) give
   * `dotdir/name` (`.lib/runtime`), which reads as a package name.
   */
  lemma DotDirectoryNotPrefixed(cwd: string, d: string, file: string, dotdir: string, name: string)
    requires |d| > 0 && d[|d| - 1] != '/'
    requires IsName(file) && IsName(dotdir) && dotdir[0] == '.' && name != "" && '/' !in name
    ensures Specifier(cwd, d + "/" + file, Some(d + "/" + dotdir + "/" + name + ".ts")) == dotdir + "/" + name
    ensures !IsRelativeSpecifier(Specifier(cwd, d + "/" + file, Some(d + "/" + dotdir + "/" + name + ".ts")))
  {
    ChildModuleParts(cwd, d, file, dotdir, name);
    DotPathIsNotRelative(dotdir, name);
  }

  /** The directory part with "./" in front of everything that is not already a path upwards. */
  function RelativeDirPart(rel: string): string {
    if rel == "" then "." else if rel == ".." || StartsWith(rel, "../") then rel else "./" + rel
  }

  /** The corrected directory part, followed by '/', starts with "./" or "../". */
  lemma RelativeDirPartStarts(rel: string, base: string)
    ensures var r := RelativeDirPart(rel) + "/" + base; StartsWith(r, "./") || StartsWith(r, "../")
  {
    var r := RelativeDirPart(rel) + "/" + base;
    if rel == "" {
      assert r[..2] == "./";
    } else if rel == ".." {
      assert r[..3] == "../";
    } else if StartsWith(rel, "../") {
      assert r[..3] == rel[..3];
    } else {
      assert r[..2] == "./";
    }
  }

  /** The specifier with the prefix test corrected: always a relative specifier. */
  function CorrectedSpecifier(cwd: string, importer: string, moduleFile: Option<string>): (r: string)
    ensures !Falsy(moduleFile) ==> StartsWith(r, "./") || StartsWith(r, "../")
    ensures !Falsy(moduleFile) ==>
      r == RelativeDirPart(ModuleDir(cwd, importer, moduleFile.value)) + "/" + Basename(moduleFile.value, ".ts")
    ensures Falsy(moduleFile) ==> r == RuntimeModule
  {
    if Falsy(moduleFile) then RuntimeModule
    else
      var rel := ModuleDir(cwd, importer, moduleFile.value);
      var base := Basename(moduleFile.value, ".ts");
      RelativeDirPartStarts(rel, base);
      RelativeDirPart(rel) + "/" + base
  }

  /** The corrected directory part still arrives at the module's directory. */
  lemma CorrectedDirPartArrives(cwd: string, importer: string, moduleFile: string)
    ensures Walk(Resolve(cwd, Dirname(importer)), Split(RelativeDirPart(ModuleDir(cwd, importer, moduleFile))))
            == Resolve(cwd, Dirname(moduleFile))
  {
    var rel := ModuleDir(cwd, importer, moduleFile);
    DirPartArrives(cwd, importer, moduleFile);
    if rel != "" && rel[0] == '.' && !(rel == ".." || StartsWith(rel, "../")) {
      RelativeArrives(cwd, Dirname(importer), Dirname(moduleFile));
      DotSlashSplit(rel);
      WalkDot(Resolve(cwd, Dirname(importer)), Split(rel));
    }
  }

  /** A directory name starting with '.' is not a path upwards, so the corrected prefix test adds "./". */
  lemma DotNameDirPart(dotdir: string)
    requires IsName(dotdir) && dotdir[0] == '.'
    ensures RelativeDirPart(dotdir) == "./" + dotdir
  {
    assert |dotdir| >= 2;
    if |dotdir| >= 3 {
      assert dotdir[2] in dotdir;
      assert dotdir[..3] != "../";
    }
  }

  /** The corrected specifier for the example above: `./dotdir/name`. */
  lemma DotDirectoryPrefixed(cwd: string, d: string, file: string, dotdir: string, name: string)
    requires |d| > 0 && d[|d| - 1] != '/'
    requires IsName(file) && IsName(dotdir) && dotdir[0] == '.' && name != "" && '/' !in name
    ensures CorrectedSpecifier(cwd, d + "/" + file, Some(d + "/" + dotdir + "/" + name + ".ts")) == "./" + dotdir + "/" + name
  {
    ChildModuleParts(cwd, d, file, dotdir, name);
    DotNameDirPart(dotdir);
  }
}
