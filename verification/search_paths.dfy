/** The template and static search-path lists that stage and report
    classes declare as class attributes. A Python list is a heap object: a
    subclass that writes `parent_list[:]` gets a copy it may extend freely,
    while one that assigns the parent's list and then appends to it changes
    the list every class sharing it sees. The locations of the package's
    built-in and shared template and static folders are parameters. */
module SearchPaths {
  import opened Paths
  import opened PyValues

  /** A Python list of search-path entries (Paths, or strs where the
      source writes a string). */
  class PathList {
    var items: seq<PyValue>

    constructor (xs: seq<PyValue>)
      ensures items == xs
    {
      items := xs;
    }

    /** `lst[:]`: a new list with the same entries. */
    method Copy() returns (c: PathList)
      ensures fresh(c) && c.items == items
    {
      c := new PathList(items);
    }

    /** `lst.insert(0, x)`. */
    method Prepend(x: PyValue)
      modifies this
      ensures items == [x] + old(items)
    {
      items := [x] + items;
    }

    /** `lst.append(x)`. */
    method Append(x: PyValue)
      modifies this
      ensures items == old(items) + [x]
    {
      items := items + [x];
    }
  }

  /** `root / name / ...`. */
  function Under(root: Path, names: seq<string>): (r: Path)
    ensures r.root == root.root && r.parts == root.parts + names
  {
    Path(root.root, root.parts + names)
  }

  /** Where the package's folders are, as the unmodelled
      `ngcloud.pipe` helpers and `Path(__file__).parent` report them. */
  datatype Roots = Roots(
    builtinReportRoot: Path,    // _get_builtin_report_root()
    builtinTemplateRoot: Path,  // _get_builtin_template_root()
    sharedTemplateRoot: Path,   // get_shared_template_root()
    sharedStaticRoot: Path,     // get_shared_static_root()
    gatkHere: Path)             // the folder of examples/gatk/gatk.py

  /** The stage classes the reports list. */
  datatype StageClass =
    | TuxedoIndexStage | TuxedoQCStage | TuxedoTophatStage
    | NextTophatStage
    | GatkIndexStage | GatkQCStage | GatkAlignStage | GatkStage

  // ---------------------------------------------------------------------
  // ngcloud/pipe/tuxedo.py

  /** The class attributes ngcloud/pipe/tuxedo.py sets up. */
  class TuxedoModule {
    /** `_find_paths`, which `TuxedoBaseStage.template_find_paths` names. */
    const baseFindPaths: PathList
    /** `TuxedoReport.static_roots`. */
    const staticRoots: PathList

    constructor (roots: Roots)
      ensures fresh(baseFindPaths) && fresh(staticRoots)
      ensures baseFindPaths.items == [PyPath(Under(roots.builtinReportRoot, ["tuxedo", "templates"])),
                                      PyPath(roots.sharedTemplateRoot)]
      ensures staticRoots.items == [PyPath(roots.sharedStaticRoot),
                                    PyPath(Under(roots.builtinReportRoot, ["tuxedo", "static"]))]
    {
      baseFindPaths := new PathList([PyPath(Under(roots.builtinReportRoot, ["tuxedo", "templates"])),
                                     PyPath(roots.sharedTemplateRoot)]);
      staticRoots := new PathList([PyPath(roots.sharedStaticRoot),
                                   PyPath(Under(roots.builtinReportRoot, ["tuxedo", "static"]))]);
    }
  }

  /** `TuxedoReport.stage_classnames`. */
  const TUXEDO_STAGE_CLASSES: seq<StageClass> := [TuxedoIndexStage, TuxedoQCStage, TuxedoTophatStage]

  // ---------------------------------------------------------------------
  // examples/next_tuxedo/next_tuxedo.py

  class NextTuxedoModule {
    /** `TophatStage.template_find_paths`. */
    const tophatFindPaths: PathList
    /** `TuxedoReport.static_roots`. */
    const staticRoots: PathList
    const stageClassnames: seq<StageClass>

    constructor (tophat: PathList, statics: PathList, classes: seq<StageClass>)
      ensures tophatFindPaths == tophat && staticRoots == statics && stageClassnames == classes
    {
      tophatFindPaths := tophat;
      staticRoots := statics;
      stageClassnames := classes;
    }
  }

  /** Loading next_tuxedo.py: both lists are copies of the parent's,
      extended afterwards, so the parent's lists are left as they were. */
  method LoadNextTuxedo(t: TuxedoModule) returns (n: NextTuxedoModule)
    ensures fresh(n.tophatFindPaths) && fresh(n.staticRoots)
    ensures n.tophatFindPaths.items == [PyPath(Path("", ["template"]))] + t.baseFindPaths.items
    ensures n.staticRoots.items == t.staticRoots.items + [PyStr("../../template_dev/tuxedo")]
    ensures |n.stageClassnames| == |TUXEDO_STAGE_CLASSES|
    ensures n.stageClassnames == TUXEDO_STAGE_CLASSES[..2] + [NextTophatStage]
    ensures t.baseFindPaths.items == old(t.baseFindPaths.items)
    ensures t.staticRoots.items == old(t.staticRoots.items)
  {
    var tophat := t.baseFindPaths.Copy();
    tophat.Prepend(PyPath(Path("", ["template"])));
    var statics := t.staticRoots.Copy();
    statics.Append(PyStr("../../template_dev/tuxedo"));
    n := new NextTuxedoModule(tophat, statics, [TuxedoIndexStage, TuxedoQCStage, NextTophatStage]);
  }

  // ---------------------------------------------------------------------
  // examples/new_qc_stage/newqc.py

  /** Loading newqc.py: `NewQCStage.template_find_paths` is a copy of the
      list tuxedo's QCStage inherits, with the local templates first. */
  method LoadNewQcFindPaths(t: TuxedoModule) returns (l: PathList)
    ensures fresh(l)
    ensures l.items == [PyPath(Path("", ["report", "templates"]))] + t.baseFindPaths.items
    ensures t.baseFindPaths.items == old(t.baseFindPaths.items)
  {
    l := t.baseFindPaths.Copy();
    l.Prepend(PyPath(Path("", ["report", "templates"])));
  }

  // ---------------------------------------------------------------------
  // examples/gatk/gatk.py

  /** `GATKReport.template_config()`'s `stage_template_cls`. */
  const GATK_STAGE_CLASSES: seq<StageClass> := [GatkIndexStage, GatkQCStage, GatkAlignStage, GatkStage]

  /** `GATKReport.template_config()`'s `static_roots`: the local static
      folder is searched before the shared one. */
  function GatkStaticRoots(roots: Roots): seq<Path> {
    [Under(roots.gatkHere, ["report", "static"]), roots.sharedStaticRoot]
  }

  class GatkModule {
    /** `GATKBaseStage.template_find_paths`. */
    const baseFindPaths: PathList
    /** `QCStage.template_find_paths`. */
    const qcFindPaths: PathList

    constructor (base: PathList, qc: PathList)
      ensures baseFindPaths == base && qcFindPaths == qc
    {
      baseFindPaths := base;
      qcFindPaths := qc;
    }

    /** The list a stage class finds through its own attribute or
        through inheritance from GATKBaseStage. */
    function FindPaths(stage: StageClass): (r: PathList)
      requires stage in GATK_STAGE_CLASSES
      ensures stage == GatkQCStage ==> r == qcFindPaths
      ensures stage != GatkQCStage ==> r == baseFindPaths
    {
      if stage == GatkQCStage then qcFindPaths else baseFindPaths
    }
  }

  /** Loading gatk.py: QCStage names GATKBaseStage's own list and appends
      to it, so every GATK stage sees three entries, the tuxedo templates
      last; tuxedo's lists are a different object and stay as they were. */
  method LoadGatk(t: TuxedoModule, roots: Roots) returns (g: GatkModule)
    ensures fresh(g.baseFindPaths)
    ensures g.qcFindPaths == g.baseFindPaths
    ensures g.baseFindPaths.items == [PyPath(Under(roots.gatkHere, ["report", "templates"])),
                                      PyPath(roots.sharedTemplateRoot),
                                      PyPath(Under(roots.builtinTemplateRoot, ["tuxedo"]))]
    ensures forall s :: s in GATK_STAGE_CLASSES ==>
              |g.FindPaths(s).items| == 3
              && g.FindPaths(s).items[2] == PyPath(Under(roots.builtinTemplateRoot, ["tuxedo"]))
    ensures t.baseFindPaths.items == old(t.baseFindPaths.items)
  {
    var base := new PathList([PyPath(Under(roots.gatkHere, ["report", "templates"])),
                              PyPath(roots.sharedTemplateRoot)]);
    var qc := base;
    qc.Append(PyPath(Under(roots.builtinTemplateRoot, ["tuxedo"])));
    g := new GatkModule(base, qc);
  }
}
