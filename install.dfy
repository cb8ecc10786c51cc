/**
 * The `larastarters:install` command as a plan: the list of steps `handle`
 * performs for a given `--theme` and `--composer` option, with the three
 * theme replacements (`replaceWindmill`, `replaceWithNotusjs`,
 * `replaceWithTailwindComponents`) spelled out step by step.
 */
module Install {
  import opened PhpArray
  import Composer
  import Manifest

  /** The Laravel path helpers a destination is resolved against; only their names are modelled. */
  datatype Root = ResourcePath | PublicPath | BasePath

  /** A destination: a helper's directory and the path segments below it. */
  datatype Path = Path(root: Root, segments: seq<string>)

  /** A bundled stub, as path segments below this package's `resources/stubs`. */
  type Stub = seq<string>

  datatype Action =
    | RunProcess(argv: seq<string>, cwd: Root, env: seq<(string, string)>)
    | ShellExec(command: string)
    | MergeNodePackages(additions: Assoc, dev: bool)   // `updateNodePackages` with the callback `additions + $packages`
    | EnsureDirectoryExists(dir: Path)
    | CopyDirectory(from: Stub, to: Path)
    | CopyFile(from: Stub, to: Path)
    | Info(message: string)
    | Comment(message: string)

  const BreezePackage := "laravel/breeze:^1.4"
  const BreezeInstall := "php artisan breeze:install"
  const Replaced := "Breeze scaffolding replaced successfully."
  const BuildAssets := "Please execute the \"npm install && npm run dev\" command to build your assets."

  /** `requireComposerPackages`: run Composer in the base path with its memory limit lifted. */
  function RequireComposerPackages(composer: string, packages: seq<string>): Action {
    RunProcess(Composer.ComposerCommand(composer, packages), BasePath, [("COMPOSER_MEMORY_LIMIT", "-1")])
  }

  function Resource(segments: seq<string>): Path { Path(ResourcePath, segments) }
  function Public(segments: seq<string>): Path { Path(PublicPath, segments) }
  function Base(segments: seq<string>): Path { Path(BasePath, segments) }

  /** The two status lines every replacement ends with. */
  function Reports(): seq<Action> {
    [Info(Replaced), Comment(BuildAssets)]
  }

  /** `replaceWindmill`: npm packages, directories, views, assets and images, then the status lines. */
  function ReplaceWindmill(): seq<Action> {
    [MergeNodePackages(Manifest.WindmillPackages, true)] + WindmillScaffolding()
  }

  /** Everything `replaceWindmill` does after updating `package.json`. */
  function WindmillScaffolding(): seq<Action> {
    WindmillDirectories() + WindmillViews() + WindmillAssets() + Reports()
  }

  function WindmillDirectories(): seq<Action> {
    [ EnsureDirectoryExists(Resource(["views", "auth"])),
      EnsureDirectoryExists(Resource(["views", "layouts"])),
      EnsureDirectoryExists(Resource(["views", "components"])),
      EnsureDirectoryExists(Public(["images"])),
      EnsureDirectoryExists(Public(["js"])) ]
  }

  function WindmillViews(): seq<Action> {
    [ CopyDirectory(["windmill", "views", "auth"], Resource(["views", "auth"])),
      CopyDirectory(["windmill", "views", "layouts"], Resource(["views", "layouts"])),
      CopyDirectory(["windmill", "views", "components"], Resource(["views", "components"])),
      CopyFile(["windmill", "views", "dashboard.blade.php"], Resource(["views", "dashboard.blade.php"])) ]
  }

  /** The asset copies of `replaceWindmill`, and its images directory. */
  function WindmillAssets(): seq<Action> {
    [ CopyFile(["windmill", "tailwind.config.js"], Base(["tailwind.config.js"])),
      CopyFile(["windmill", "css", "app.css"], Resource(["css", "app.css"])),
      CopyFile(["windmill", "js", "app.js"], Resource(["js", "app.js"])),
      CopyFile(["windmill", "js", "init-alpine.js"], Public(["js", "init-alpine.js"])),
      CopyDirectory(["windmill", "images"], Public(["images"])) ]
  }

  /** `replaceWithNotusjs`: directories, views, its Tailwind config and images, then the status lines. */
  function ReplaceWithNotusjs(): seq<Action> {
    NotusjsDirectories() + NotusjsViews() + NotusjsAssets() + Reports()
  }

  function NotusjsDirectories(): seq<Action> {
    [ EnsureDirectoryExists(Resource(["views", "auth"])),
      EnsureDirectoryExists(Resource(["views", "layouts"])),
      EnsureDirectoryExists(Resource(["views", "components"])),
      EnsureDirectoryExists(Public(["images"])) ]
  }

  function NotusjsViews(): seq<Action> {
    [ CopyDirectory(["notusjs", "views", "auth"], Resource(["views", "auth"])),
      CopyDirectory(["notusjs", "views", "layouts"], Resource(["views", "layouts"])),
      CopyDirectory(["notusjs", "views", "components"], Resource(["views", "components"])),
      CopyFile(["notusjs", "views", "dashboard.blade.php"], Resource(["views", "dashboard.blade.php"])) ]
  }

  function NotusjsAssets(): seq<Action> {
    [ CopyFile(["notusjs", "tailwind.config.js"], Base(["tailwind.config.js"])),
      CopyDirectory(["notusjs", "images"], Public(["images"])) ]
  }

  /** `replaceWithTailwindComponents`: directories and views only, then the status lines. */
  function ReplaceWithTailwindComponents(): seq<Action> {
    TailwindComponentsDirectories() + TailwindComponentsViews() + Reports()
  }

  function TailwindComponentsDirectories(): seq<Action> {
    [ EnsureDirectoryExists(Resource(["views", "auth"])),
      EnsureDirectoryExists(Resource(["views", "layouts"])),
      EnsureDirectoryExists(Resource(["views", "components"])) ]
  }

  function TailwindComponentsViews(): seq<Action> {
    [ CopyDirectory(["tailwindcomponents", "views", "auth"], Resource(["views", "auth"])),
      CopyDirectory(["tailwindcomponents", "views", "layouts"], Resource(["views", "layouts"])),
      CopyDirectory(["tailwindcomponents", "views", "components"], Resource(["views", "components"])),
      CopyFile(["tailwindcomponents", "views", "dashboard.blade.php"], Resource(["views", "dashboard.blade.php"])) ]
  }

  /** `handle`: install Breeze, run its installer, then the replacement the theme names, if any. */
  function Handle(theme: string, composer: string): seq<Action> {
    Prelude(composer) + Replacement(theme)
  }

  /** The `--theme` dispatch of `handle`: the first matching comparison wins. */
  function Replacement(theme: string): (plan: seq<Action>)
    ensures plan == [] <==> !KnownTheme(theme)
  {
    if theme == "windmill" then ReplaceWindmill()
    else if theme == "notusjs" then ReplaceWithNotusjs()
    else if theme == "tailwindcomponents" then ReplaceWithTailwindComponents()
    else []
  }

  predicate KnownTheme(theme: string) {
    theme == "windmill" || theme == "notusjs" || theme == "tailwindcomponents"
  }

  // What a plan does, step by step. The measures count the command's own
  // copy, ensure, manifest-update and status steps; whatever the Composer run
  // and the Breeze installer change on disk is outside every one of them.

  /** How many steps of `plan` equal `step`. */
  function Occurrences(plan: seq<Action>, step: Action): nat {
    if plan == [] then 0
    else (if plan[0] == step then 1 else 0) + Occurrences(plan[1..], step)
  }

  /** The destinations the plan's copy steps write (files and directories). */
  function Written(plan: seq<Action>): set<Path> {
    if plan == [] then {}
    else (if plan[0].CopyFile? || plan[0].CopyDirectory? then {plan[0].to} else {}) + Written(plan[1..])
  }

  /** Whether the plan has an `updateNodePackages` step. */
  predicate UpdatesManifest(plan: seq<Action>) {
    plan != [] && (plan[0].MergeNodePackages? || UpdatesManifest(plan[1..]))
  }

  /**
   * The decoded manifest after the plan's manifest updates, applied in order,
   * when `package.json` exists exactly if `present` (no step creates or deletes it).
   */
  function ManifestAfter(plan: seq<Action>, present: bool, fields: map<string, Assoc>): map<string, Assoc> {
    if plan == [] then fields
    else ManifestAfter(plan[1..], present, ManifestStep(plan[0], present, fields))
  }

  /** One step's effect on the manifest: `updateNodePackages` returns early when the file is absent. */
  function ManifestStep(step: Action, present: bool, fields: map<string, Assoc>): map<string, Assoc> {
    match step
    case MergeNodePackages(additions, dev) =>
      if present then Manifest.Updated(fields, (packages, key) => Union(additions, packages), dev) else fields
    case _ => fields
  }

  /** The directories a plan ensures, in order. */
  function Ensured(plan: seq<Action>): seq<Path> {
    if plan == [] then []
    else (if plan[0].EnsureDirectoryExists? then [plan[0].dir] else []) + Ensured(plan[1..])
  }

  /** Whether the path segments of `file`, less the last, lead into or up to `dir`. */
  predicate ParentWithin(file: seq<string>, dir: seq<string>) {
    |file| <= 1 || (dir != [] && file[0] == dir[0] && ParentWithin(file[1..], dir[1..]))
  }

  /**
   * Whether the directory of `file` exists once the directories `made` have been
   * ensured: `ensureDirectoryExists` creates missing ancestors too, and the
   * helpers' own directories exist in any application.
   */
  predicate Prepared(made: seq<Path>, file: Path) {
    if |file.segments| <= 1 then true
    else if made == [] then false
    else (made[0].root == file.root && ParentWithin(file.segments, made[0].segments)) || Prepared(made[1..], file)
  }

  /**
   * The destinations of single-file copies (PHP `copy`, which needs the target's
   * directory to exist) whose directory was not ensured by an earlier step,
   * given that the directories `made` were ensured before the plan.
   */
  function Unprepared(plan: seq<Action>, made: seq<Path>): set<Path> {
    if plan == [] then {}
    else match plan[0]
      case EnsureDirectoryExists(dir) => Unprepared(plan[1..], made + [dir])
      case CopyFile(_, to) => (if Prepared(made, to) then {} else {to}) + Unprepared(plan[1..], made)
      case _ => Unprepared(plan[1..], made)
  }

  // Each measure of a concatenation combines the measures of its parts.

  lemma {:induction false} OccurrencesConcat(a: seq<Action>, b: seq<Action>, step: Action)
    ensures Occurrences(a + b, step) == Occurrences(a, step) + Occurrences(b, step)
  {
    if a == [] {
      assert a + b == b;
    } else {
      assert (a + b)[0] == a[0] && (a + b)[1..] == a[1..] + b;
      OccurrencesConcat(a[1..], b, step);
    }
  }

  lemma {:induction false} WrittenConcat(a: seq<Action>, b: seq<Action>)
    ensures Written(a + b) == Written(a) + Written(b)
  {
    if a == [] {
      assert a + b == b;
    } else {
      assert (a + b)[0] == a[0] && (a + b)[1..] == a[1..] + b;
      WrittenConcat(a[1..], b);
    }
  }

  lemma {:induction false} UpdatesManifestConcat(a: seq<Action>, b: seq<Action>)
    ensures UpdatesManifest(a + b) <==> UpdatesManifest(a) || UpdatesManifest(b)
  {
    if a == [] {
      assert a + b == b;
    } else {
      assert (a + b)[0] == a[0] && (a + b)[1..] == a[1..] + b;
      UpdatesManifestConcat(a[1..], b);
    }
  }

  lemma {:induction false} ManifestAfterConcat(a: seq<Action>, b: seq<Action>, present: bool, fields: map<string, Assoc>)
    ensures ManifestAfter(a + b, present, fields) == ManifestAfter(b, present, ManifestAfter(a, present, fields))
  {
    if a == [] {
      assert a + b == b;
    } else {
      assert (a + b)[0] == a[0] && (a + b)[1..] == a[1..] + b;
      ManifestAfterConcat(a[1..], b, present, ManifestStep(a[0], present, fields));
    }
  }

  /** A plan without a manifest update leaves the manifest as it was. */
  lemma {:induction false} ManifestAfterNoUpdate(plan: seq<Action>, present: bool, fields: map<string, Assoc>)
    requires !UpdatesManifest(plan)
    ensures ManifestAfter(plan, present, fields) == fields
  {
    if plan != [] {
      ManifestAfterNoUpdate(plan[1..], present, fields);
    }
  }

  lemma {:induction false} EnsuredConcat(a: seq<Action>, b: seq<Action>)
    ensures Ensured(a + b) == Ensured(a) + Ensured(b)
  {
    if a == [] {
      assert a + b == b;
    } else {
      assert (a + b)[0] == a[0] && (a + b)[1..] == a[1..] + b;
      EnsuredConcat(a[1..], b);
    }
  }

  lemma {:induction false} UnpreparedConcat(a: seq<Action>, b: seq<Action>, made: seq<Path>)
    ensures Unprepared(a + b, made) == Unprepared(a, made) + Unprepared(b, made + Ensured(a))
  {
    if a == [] {
      assert a + b == b && made + [] == made;
    } else {
      assert (a + b)[0] == a[0] && (a + b)[1..] == a[1..] + b;
      if a[0].EnsureDirectoryExists? {
        UnpreparedConcat(a[1..], b, made + [a[0].dir]);
        assert made + [a[0].dir] + Ensured(a[1..]) == made + Ensured(a);
      } else {
        assert Ensured(a) == Ensured(a[1..]);
        UnpreparedConcat(a[1..], b, made);
      }
    }
  }

  /** Without single-file copies nothing can be unprepared. */
  lemma {:induction false} UnpreparedNoCopy(plan: seq<Action>, made: seq<Path>)
    requires forall i :: 0 <= i < |plan| ==> !plan[i].CopyFile?
    ensures Unprepared(plan, made) == {}
  {
    if plan != [] {
      UnpreparedNoCopy(plan[1..], if plan[0].EnsureDirectoryExists? then made + [plan[0].dir] else made);
    }
  }

  // The steps of each replacement, block by block.

  /** The first two steps of `handle`: require Breeze through Composer, then run its installer. */
  function Prelude(composer: string): seq<Action> {
    [RequireComposerPackages(composer, [BreezePackage]), ShellExec(BreezeInstall)]
  }

  /**
   * A plan that only runs commands has no copy, ensure, manifest-update or
   * status step of the command's own.
   */
  lemma {:induction false} CommandsOnly(plan: seq<Action>)
    requires forall i :: 0 <= i < |plan| ==> plan[i].RunProcess? || plan[i].ShellExec?
    ensures Written(plan) == {} && Ensured(plan) == [] && !UpdatesManifest(plan)
    ensures Occurrences(plan, Info(Replaced)) == 0 && Occurrences(plan, Comment(BuildAssets)) == 0
    ensures forall made :: Unprepared(plan, made) == {}
  {
    if plan != [] {
      CommandsOnly(plan[1..]);
    }
    forall made ensures Unprepared(plan, made) == {} {
      UnpreparedNoCopy(plan, made);
    }
  }

  /** `handle` runs the prelude, then exactly the replacement the theme names. */
  lemma HandleSplit(theme: string, composer: string)
    ensures var plan := Handle(theme, composer);
      && Written(plan) == Written(Replacement(theme))
      && (UpdatesManifest(plan) <==> UpdatesManifest(Replacement(theme)))
      && Occurrences(plan, Info(Replaced)) == Occurrences(Replacement(theme), Info(Replaced))
      && Occurrences(plan, Comment(BuildAssets)) == Occurrences(Replacement(theme), Comment(BuildAssets))
      && Unprepared(plan, []) == Unprepared(Replacement(theme), [])
      && forall present, fields :: ManifestAfter(plan, present, fields) == ManifestAfter(Replacement(theme), present, fields)
  {
    var prelude := Prelude(composer);
    var r := Replacement(theme);
    CommandsOnly(prelude);
    WrittenConcat(prelude, r);
    UpdatesManifestConcat(prelude, r);
    OccurrencesConcat(prelude, r, Info(Replaced));
    OccurrencesConcat(prelude, r, Comment(BuildAssets));
    UnpreparedConcat(prelude, r, []);
    assert [] + Ensured(prelude) == [];
    forall present, fields ensures ManifestAfter(prelude + r, present, fields) == ManifestAfter(r, present, fields) {
      ManifestAfterConcat(prelude, r, present, fields);
      ManifestAfterNoUpdate(prelude, present, fields);
    }
  }

  // Windmill.

  lemma WindmillBlocks()
    ensures Written(WindmillDirectories()) == {} && Written(Reports()) == {}
    ensures Written(WindmillViews()) == {
      Resource(["views", "auth"]), Resource(["views", "layouts"]), Resource(["views", "components"]),
      Resource(["views", "dashboard.blade.php"]) }
    ensures Written(WindmillAssets()) == {
      Base(["tailwind.config.js"]), Resource(["css", "app.css"]),
      Resource(["js", "app.js"]), Public(["js", "init-alpine.js"]), Public(["images"]) }
    ensures !UpdatesManifest(WindmillDirectories()) && !UpdatesManifest(WindmillViews())
    ensures !UpdatesManifest(WindmillAssets()) && !UpdatesManifest(Reports())
    ensures Occurrences(Reports(), Info(Replaced)) == 1 && Occurrences(Reports(), Comment(BuildAssets)) == 1
    ensures Occurrences(WindmillDirectories(), Info(Replaced)) == 0 && Occurrences(WindmillDirectories(), Comment(BuildAssets)) == 0
    ensures Occurrences(WindmillViews(), Info(Replaced)) == 0 && Occurrences(WindmillViews(), Comment(BuildAssets)) == 0
    ensures Occurrences(WindmillAssets(), Info(Replaced)) == 0 && Occurrences(WindmillAssets(), Comment(BuildAssets)) == 0
  {
  }

  lemma WindmillPrepared()
    ensures Ensured(WindmillDirectories()) == WindmillMade()
    ensures Ensured(WindmillViews()) == []
  {
  }

  lemma WindmillPreparedViews()
    ensures Unprepared(WindmillViews(), WindmillMade()) == {}
  {
  }

  lemma WindmillPreparedAssets()
    ensures Unprepared(WindmillAssets(), WindmillMade()) == {Resource(["css", "app.css"]), Resource(["js", "app.js"])}
  {
  }

  function WindmillMade(): seq<Path> {
    [Resource(["views", "auth"]), Resource(["views", "layouts"]), Resource(["views", "components"]),
     Public(["images"]), Public(["js"])]
  }

  /** `replaceWindmill` reports success once and asks once for the asset build. */
  lemma WindmillReports(step: Action)
    requires step == Info(Replaced) || step == Comment(BuildAssets)
    ensures Occurrences(ReplaceWindmill(), step) == 1
  {
    var npm := [MergeNodePackages(Manifest.WindmillPackages, true)];
    var d, v, a, r := WindmillDirectories(), WindmillViews(), WindmillAssets(), Reports();
    WindmillBlocks();
    assert Occurrences(npm, step) == 0;
    OccurrencesConcat(npm, WindmillScaffolding(), step);
    OccurrencesConcat(d + v + a, r, step);
    OccurrencesConcat(d + v, a, step);
    OccurrencesConcat(d, v, step);
  }

  lemma WindmillWritten()
    ensures Written(ReplaceWindmill()) == {
      Resource(["views", "auth"]), Resource(["views", "layouts"]), Resource(["views", "components"]),
      Resource(["views", "dashboard.blade.php"]), Base(["tailwind.config.js"]), Resource(["css", "app.css"]),
      Resource(["js", "app.js"]), Public(["js", "init-alpine.js"]), Public(["images"]) }
  {
    var npm := [MergeNodePackages(Manifest.WindmillPackages, true)];
    var d, v, a, r := WindmillDirectories(), WindmillViews(), WindmillAssets(), Reports();
    WindmillBlocks();
    assert Written(npm) == {};
    WrittenConcat(npm, WindmillScaffolding());
    WrittenConcat(d + v + a, r);
    WrittenConcat(d + v, a);
    WrittenConcat(d, v);
  }

  lemma WindmillScaffoldingKeepsManifest()
    ensures !UpdatesManifest(WindmillScaffolding())
  {
    var d, v, a, r := WindmillDirectories(), WindmillViews(), WindmillAssets(), Reports();
    WindmillBlocks();
    UpdatesManifestConcat(d + v + a, r);
    UpdatesManifestConcat(d + v, a);
    UpdatesManifestConcat(d, v);
  }

  /** The manifest step of `replaceWindmill` is `updateNodePackages` with the windmill closure. */
  lemma WindmillStep(fields: map<string, Assoc>)
    ensures ManifestStep(MergeNodePackages(Manifest.WindmillPackages, true), true, fields)
         == Manifest.Updated(fields, Manifest.WindmillCallback, true)
    ensures ManifestStep(MergeNodePackages(Manifest.WindmillPackages, true), false, fields) == fields
  {
    var existing := Manifest.Existing(fields, "devDependencies");
    assert Union(Manifest.WindmillPackages, existing) == Manifest.WindmillCallback(existing, "devDependencies");
  }

  /**
   * `replaceWindmill` updates `devDependencies` with the windmill closure and
   * nothing else in the manifest; without `package.json` it changes nothing.
   */
  lemma WindmillManifest(present: bool, fields: map<string, Assoc>)
    ensures UpdatesManifest(ReplaceWindmill())
    ensures ManifestAfter(ReplaceWindmill(), present, fields)
         == if present then Manifest.Updated(fields, Manifest.WindmillCallback, true) else fields
  {
    var npm := [MergeNodePackages(Manifest.WindmillPackages, true)];
    WindmillScaffoldingKeepsManifest();
    UpdatesManifestConcat(npm, WindmillScaffolding());
    ManifestAfterConcat(npm, WindmillScaffolding(), present, fields);
    var once := ManifestStep(npm[0], present, fields);
    assert ManifestAfter(npm, present, fields) == once;
    ManifestAfterNoUpdate(WindmillScaffolding(), present, once);
    WindmillStep(fields);
  }

  lemma WindmillUnprepared()
    ensures Unprepared(ReplaceWindmill(), []) == {Resource(["css", "app.css"]), Resource(["js", "app.js"])}
  {
    var npm := [MergeNodePackages(Manifest.WindmillPackages, true)];
    var d, v, a, r := WindmillDirectories(), WindmillViews(), WindmillAssets(), Reports();
    WindmillPrepared();
    WindmillPreparedViews();
    WindmillPreparedAssets();
    assert Ensured(npm) == [];
    UnpreparedNoCopy(npm, []);
    UnpreparedConcat(npm, WindmillScaffolding(), []);
    EnsuredConcat(d, v);
    UnpreparedConcat(d + v + a, r, []);
    UnpreparedConcat(d + v, a, []);
    UnpreparedConcat(d, v, []);
    UnpreparedNoCopy(d, []);
    UnpreparedNoCopy(r, [] + Ensured(d + v + a));
    assert [] + Ensured(d) == WindmillMade();
    assert [] + Ensured(d + v) == WindmillMade();
  }

  // Notus JS.

  lemma NotusjsBlocks()
    ensures Written(NotusjsDirectories()) == {}
    ensures Written(NotusjsViews()) == {
      Resource(["views", "auth"]), Resource(["views", "layouts"]), Resource(["views", "components"]),
      Resource(["views", "dashboard.blade.php"]) }
    ensures Written(NotusjsAssets()) == {Base(["tailwind.config.js"]), Public(["images"])}
    ensures !UpdatesManifest(NotusjsDirectories()) && !UpdatesManifest(NotusjsViews()) && !UpdatesManifest(NotusjsAssets())
    ensures Occurrences(NotusjsDirectories(), Info(Replaced)) == 0 && Occurrences(NotusjsDirectories(), Comment(BuildAssets)) == 0
    ensures Occurrences(NotusjsViews(), Info(Replaced)) == 0 && Occurrences(NotusjsViews(), Comment(BuildAssets)) == 0
    ensures Occurrences(NotusjsAssets(), Info(Replaced)) == 0 && Occurrences(NotusjsAssets(), Comment(BuildAssets)) == 0
    ensures Ensured(NotusjsDirectories()) == NotusjsMade() && Ensured(NotusjsViews()) == []
    ensures Unprepared(NotusjsViews(), NotusjsMade()) == {} && Unprepared(NotusjsAssets(), NotusjsMade()) == {}
  {
  }

  function NotusjsMade(): seq<Path> {
    [Resource(["views", "auth"]), Resource(["views", "layouts"]), Resource(["views", "components"]), Public(["images"])]
  }

  /** `replaceWithNotusjs` reports success once and asks once for the asset build. */
  lemma NotusjsReports(step: Action)
    requires step == Info(Replaced) || step == Comment(BuildAssets)
    ensures Occurrences(ReplaceWithNotusjs(), step) == 1
  {
    var d, v, a, r := NotusjsDirectories(), NotusjsViews(), NotusjsAssets(), Reports();
    WindmillBlocks();
    NotusjsBlocks();
    OccurrencesConcat(d + v + a, r, step);
    OccurrencesConcat(d + v, a, step);
    OccurrencesConcat(d, v, step);
  }

  lemma NotusjsKeepsManifest()
    ensures !UpdatesManifest(ReplaceWithNotusjs())
  {
    var d, v, a, r := NotusjsDirectories(), NotusjsViews(), NotusjsAssets(), Reports();
    WindmillBlocks();
    NotusjsBlocks();
    UpdatesManifestConcat(d + v + a, r);
    UpdatesManifestConcat(d + v, a);
    UpdatesManifestConcat(d, v);
  }

  lemma NotusjsWritten()
    ensures Written(ReplaceWithNotusjs()) == {
      Resource(["views", "auth"]), Resource(["views", "layouts"]), Resource(["views", "components"]),
      Resource(["views", "dashboard.blade.php"]), Base(["tailwind.config.js"]), Public(["images"]) }
  {
    var d, v, a, r := NotusjsDirectories(), NotusjsViews(), NotusjsAssets(), Reports();
    WindmillBlocks();
    NotusjsBlocks();
    WrittenConcat(d + v + a, r);
    WrittenConcat(d + v, a);
    WrittenConcat(d, v);
  }

  lemma NotusjsUnprepared()
    ensures Unprepared(ReplaceWithNotusjs(), []) == {}
  {
    var d, v, a, r := NotusjsDirectories(), NotusjsViews(), NotusjsAssets(), Reports();
    NotusjsBlocks();
    EnsuredConcat(d, v);
    UnpreparedConcat(d + v + a, r, []);
    UnpreparedConcat(d + v, a, []);
    UnpreparedConcat(d, v, []);
    UnpreparedNoCopy(d, []);
    UnpreparedNoCopy(r, [] + Ensured(d + v + a));
    assert [] + Ensured(d) == NotusjsMade();
    assert [] + Ensured(d + v) == NotusjsMade();
  }

  // Tailwind Components.

  lemma TailwindComponentsBlocks()
    ensures Written(TailwindComponentsDirectories()) == {}
    ensures Written(TailwindComponentsViews()) == {
      Resource(["views", "auth"]), Resource(["views", "layouts"]), Resource(["views", "components"]),
      Resource(["views", "dashboard.blade.php"]) }
    ensures !UpdatesManifest(TailwindComponentsDirectories()) && !UpdatesManifest(TailwindComponentsViews())
    ensures Occurrences(TailwindComponentsDirectories(), Info(Replaced)) == 0
    ensures Occurrences(TailwindComponentsDirectories(), Comment(BuildAssets)) == 0
    ensures Occurrences(TailwindComponentsViews(), Info(Replaced)) == 0
    ensures Occurrences(TailwindComponentsViews(), Comment(BuildAssets)) == 0
    ensures Ensured(TailwindComponentsDirectories()) == TailwindComponentsMade()
    ensures Unprepared(TailwindComponentsViews(), TailwindComponentsMade()) == {}
  {
  }

  function TailwindComponentsMade(): seq<Path> {
    [Resource(["views", "auth"]), Resource(["views", "layouts"]), Resource(["views", "components"])]
  }

  /** `replaceWithTailwindComponents` reports success once and asks once for the asset build. */
  lemma TailwindComponentsReports(step: Action)
    requires step == Info(Replaced) || step == Comment(BuildAssets)
    ensures Occurrences(ReplaceWithTailwindComponents(), step) == 1
  {
    var d, v, r := TailwindComponentsDirectories(), TailwindComponentsViews(), Reports();
    WindmillBlocks();
    TailwindComponentsBlocks();
    OccurrencesConcat(d + v, r, step);
    OccurrencesConcat(d, v, step);
  }

  lemma TailwindComponentsKeepsManifest()
    ensures !UpdatesManifest(ReplaceWithTailwindComponents())
  {
    var d, v, r := TailwindComponentsDirectories(), TailwindComponentsViews(), Reports();
    WindmillBlocks();
    TailwindComponentsBlocks();
    UpdatesManifestConcat(d + v, r);
    UpdatesManifestConcat(d, v);
  }

  lemma TailwindComponentsWritten()
    ensures Written(ReplaceWithTailwindComponents()) == {
      Resource(["views", "auth"]), Resource(["views", "layouts"]), Resource(["views", "components"]),
      Resource(["views", "dashboard.blade.php"]) }
  {
    var d, v, r := TailwindComponentsDirectories(), TailwindComponentsViews(), Reports();
    WindmillBlocks();
    TailwindComponentsBlocks();
    WrittenConcat(d + v, r);
    WrittenConcat(d, v);
  }

  lemma TailwindComponentsUnprepared()
    ensures Unprepared(ReplaceWithTailwindComponents(), []) == {}
  {
    var d, v, r := TailwindComponentsDirectories(), TailwindComponentsViews(), Reports();
    TailwindComponentsBlocks();
    UnpreparedConcat(d + v, r, []);
    UnpreparedConcat(d, v, []);
    UnpreparedNoCopy(d, []);
    UnpreparedNoCopy(r, [] + Ensured(d + v));
    assert [] + Ensured(d) == TailwindComponentsMade();
  }

  // What `handle` does, for every theme.

  /** The view destinations every known theme overwrites. */
  function Views(): set<Path> {
    {Resource(["views", "auth"]), Resource(["views", "layouts"]), Resource(["views", "components"]),
     Resource(["views", "dashboard.blade.php"])}
  }

  /**
   * A known theme runs its replacement exactly once, so the two status lines
   * appear once each; any other theme has no copy step and no status line.
   */
  lemma HandleDispatch(theme: string, composer: string)
    ensures Occurrences(Handle(theme, composer), Info(Replaced)) == if KnownTheme(theme) then 1 else 0
    ensures Occurrences(Handle(theme, composer), Comment(BuildAssets)) == if KnownTheme(theme) then 1 else 0
    ensures Written(Handle(theme, composer)) == {} <==> !KnownTheme(theme)
  {
    HandleSplit(theme, composer);
    if theme == "windmill" {
      WindmillReports(Info(Replaced));
      WindmillReports(Comment(BuildAssets));
      WindmillWritten();
    } else if theme == "notusjs" {
      NotusjsReports(Info(Replaced));
      NotusjsReports(Comment(BuildAssets));
      NotusjsWritten();
    } else if theme == "tailwindcomponents" {
      TailwindComponentsReports(Info(Replaced));
      TailwindComponentsReports(Comment(BuildAssets));
      TailwindComponentsWritten();
    }
  }

  /** Only the windmill theme touches `package.json`. */
  lemma OnlyWindmillUpdatesManifest(theme: string, composer: string)
    ensures UpdatesManifest(Handle(theme, composer)) <==> theme == "windmill"
  {
    HandleSplit(theme, composer);
    if theme == "windmill" {
      WindmillManifest(true, map[]);
    } else if theme == "notusjs" {
      NotusjsKeepsManifest();
    } else if theme == "tailwindcomponents" {
      TailwindComponentsKeepsManifest();
    }
  }

  /** The destinations of the windmill stylesheet and scripts. */
  function Scripts(): set<Path> {
    {Resource(["css", "app.css"]), Resource(["js", "app.js"]), Public(["js", "init-alpine.js"])}
  }

  lemma NotusjsWritesNoScripts()
    ensures Written(ReplaceWithNotusjs()) !! Scripts()
  {
    NotusjsWritten();
  }

  lemma TailwindComponentsWritesNoScripts()
    ensures Written(ReplaceWithTailwindComponents()) !! Scripts()
  {
    TailwindComponentsWritten();
  }

  /** Only the windmill theme writes the stylesheet and the two scripts. */
  lemma OnlyWindmillWritesScripts(theme: string, composer: string)
    ensures Scripts() <= Written(Handle(theme, composer)) <==> theme == "windmill"
    ensures Scripts() !! Written(Handle(theme, composer)) <==> theme != "windmill"
  {
    HandleSplit(theme, composer);
    if theme == "windmill" {
      WindmillWritten();
      assert Resource(["js", "app.js"]) in Scripts();
    } else if theme == "notusjs" {
      NotusjsWritesNoScripts();
      assert Resource(["js", "app.js"]) in Scripts();
    } else if theme == "tailwindcomponents" {
      TailwindComponentsWritesNoScripts();
      assert Resource(["js", "app.js"]) in Scripts();
    } else {
      assert Resource(["js", "app.js"]) in Scripts();
    }
  }

  /**
   * Every known theme, and only a known theme, overwrites the auth, layout and
   * component views and the dashboard.
   */
  lemma KnownThemesReplaceViews(theme: string, composer: string)
    ensures Views() <= Written(Handle(theme, composer)) <==> KnownTheme(theme)
  {
    HandleSplit(theme, composer);
    if theme == "windmill" {
      WindmillWritten();
    } else if theme == "notusjs" {
      NotusjsWritten();
    } else if theme == "tailwindcomponents" {
      TailwindComponentsWritten();
    } else {
      assert Resource(["views", "auth"]) in Views();
    }
  }

  /** The Tailwind configuration and the images directory. */
  function ConfigAndImages(): set<Path> {
    {Base(["tailwind.config.js"]), Public(["images"])}
  }

  lemma TailwindComponentsKeepsConfigAndImages()
    ensures Written(ReplaceWithTailwindComponents()) !! ConfigAndImages()
  {
    TailwindComponentsWritten();
  }

  /** The Tailwind configuration and the images come with windmill and Notus JS, and only with them. */
  lemma ConfigAndImagesThemes(theme: string, composer: string)
    ensures ConfigAndImages() <= Written(Handle(theme, composer)) <==> theme == "windmill" || theme == "notusjs"
    ensures ConfigAndImages() !! Written(Handle(theme, composer)) <==> theme != "windmill" && theme != "notusjs"
  {
    HandleSplit(theme, composer);
    assert Public(["images"]) in ConfigAndImages();
    if theme == "windmill" {
      WindmillWritten();
    } else if theme == "notusjs" {
      NotusjsWritten();
    } else if theme == "tailwindcomponents" {
      TailwindComponentsKeepsConfigAndImages();
    }
  }

  /**
   * After `handle`, the decoded manifest is the windmill update of the old one
   * when the theme is windmill and `package.json` exists, and unchanged by the
   * command's own steps otherwise.
   */
  lemma HandleManifest(theme: string, composer: string, present: bool, fields: map<string, Assoc>)
    ensures ManifestAfter(Handle(theme, composer), present, fields)
         == if theme == "windmill" && present then Manifest.Updated(fields, Manifest.WindmillCallback, true) else fields
  {
    HandleSplit(theme, composer);
    if theme == "windmill" {
      WindmillManifest(present, fields);
    } else if theme == "notusjs" {
      NotusjsKeepsManifest();
      ManifestAfterNoUpdate(ReplaceWithNotusjs(), present, fields);
    } else if theme == "tailwindcomponents" {
      TailwindComponentsKeepsManifest();
      ManifestAfterNoUpdate(ReplaceWithTailwindComponents(), present, fields);
    }
  }

  /**
   * The single-file copies whose directory no step ensures: the windmill
   * stylesheet and `app.js` under the resource path; every other copy lands
   * in a directory ensured before it or at the root of a helper's directory.
   */
  lemma UnpreparedCopies(theme: string, composer: string)
    ensures Unprepared(Handle(theme, composer), [])
         == if theme == "windmill" then {Resource(["css", "app.css"]), Resource(["js", "app.js"])} else {}
  {
    HandleSplit(theme, composer);
    if theme == "windmill" {
      WindmillUnprepared();
    } else if theme == "notusjs" {
      NotusjsUnprepared();
    } else if theme == "tailwindcomponents" {
      TailwindComponentsUnprepared();
    }
  }
}
