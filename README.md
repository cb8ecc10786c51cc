# Larastarters install command, modelled in Dafny

Larastarters' `larastarters:install` Artisan command
(`src/Console/InstallCommand.php`) installs Laravel Breeze. It then replaces
Breeze's scaffolding with one of three themes: windmill, Notus JS or
Tailwind Components. This project models the command's core and proves
properties of it:

- **`updateNodePackages`** (module `Manifest`) is the class `PackageJson`. Its
  fields are whether `package.json` exists, its decoded top-level object and
  a count of writes. Its method `UpdateNodePackages` copies the callback's
  result into an array and sorts that array in place. The sort is `KeySort.KSort`,
  an insertion sort by adjacent swaps. The method then stores the field and
  counts one write. `Manifest.Updated` is the specification the method is
  proved against.
- **PHP arrays** (module `PhpArray`) are ordered sequences of (key, value)
  entries with no key twice. PHP's array union `+` is `Union`: the left
  operand's entries come first and win on shared keys.
- **`ksort`** (module `KeySort`) is key order by code point. `KSorted` is its
  functional form. The key-ascending arrangement of a set of entries is
  proved unique, so the in-place sort and `KSorted` agree.
- **`requireComposerPackages`** (module `Composer`) is the argument vector
  handed to the process runner.
- **`handle` and the three `replace…` methods** (module `Install`) are a plan:
  the list of steps the command performs, in order. The plan's steps are
  Composer process runs, `shell_exec`, manifest updates, directory ensures,
  directory and file copies, and the two status lines. Recursive measures
  over a plan are:
  - the destinations its copy steps write;
  - how often a step occurs;
  - whether it has an `updateNodePackages` step;
  - the decoded manifest after its `updateNodePackages` steps, which do
    nothing when `package.json` is absent;
  - the single-file copies whose directory no earlier step ensured.

  These measures state what each theme does.

Paths are a Laravel path helper (`resource_path`, `public_path`,
`base_path`) plus the segments below it. `ensureDirectoryExists` creates
missing ancestors. A file directly under a helper's directory needs no
ensure.

The windmill theme copies `css/app.css` and `js/app.js` under the resource
path without ensuring `resources/css` or `resources/js` (lines 86-87);
`Install.UnpreparedCopies` states that these are the only such copies.

## Model

| member | source | states |
|---|---|---|
| `Install.Handle` | src/Console/InstallCommand.php:42-59 | The plan of `handle`: the Breeze prelude, then the replacement the theme selects. |
| `Install.Replacement` | src/Console/InstallCommand.php:48-58 | The theme dispatch. The replacement is empty exactly when the theme is none of `windmill`, `notusjs` and `tailwindcomponents`. |
| `Install.Prelude` | src/Console/InstallCommand.php:44-46 | The first two steps: require `laravel/breeze:^1.4` through Composer, then `shell_exec('php artisan breeze:install')`. |
| `Install.RequireComposerPackages` | src/Console/InstallCommand.php:145-163 | A process run of `Composer.ComposerCommand` in the base path with `COMPOSER_MEMORY_LIMIT` set to `-1`. |
| `Install.ReplaceWindmill` | src/Console/InstallCommand.php:61-95 | The windmill steps in source order: the npm merge, five ensures, the view copies, the asset copies, the images, the two status lines. |
| `Install.ReplaceWithNotusjs` | src/Console/InstallCommand.php:97-119 | The Notus JS steps in source order: four ensures, the view copies, the Tailwind config, the images, the two status lines. |
| `Install.ReplaceWithTailwindComponents` | src/Console/InstallCommand.php:121-136 | The Tailwind Components steps in source order: three ensures, the view copies, the two status lines. |
| `Manifest.Updated` | src/Console/InstallCommand.php:179-188 | The chosen field is present, key-ascending and a permutation of the callback's result on `Existing`. Every other field is kept. |
| `Manifest.Existing` | src/Console/InstallCommand.php:184 | What the callback is handed: the field's mapping if the key exists, else `[]`. |
| `KeySort.Less` | src/Console/InstallCommand.php:188 | The key order `ksort` sorts by, modelled as code-point string comparison. |
| `KeySort.LessTotal` | src/Console/InstallCommand.php:188 | Two distinct keys are ordered one way or the other. |
| `KeySort.LessTransitive` | src/Console/InstallCommand.php:188 | The key order is transitive. |
| `KeySort.LessIrreflexive` | src/Console/InstallCommand.php:188 | No key is below itself. |
| `Manifest.PackageJson.UpdateNodePackages` | src/Console/InstallCommand.php:173-194 | With no `package.json` it changes nothing and writes nothing. Otherwise it sets the decoded object to `Updated` of the old one and writes the file exactly once. |
| `Manifest.ConfigurationKey` | src/Console/InstallCommand.php:179 | The field is `devDependencies` exactly when `dev` holds, and `dependencies` exactly when it does not. |
| `Manifest.UpdatedFieldIsSortedCallbackResult` | src/Console/InstallCommand.php:181-188 | The chosen field ends up key-ascending and holds exactly the callback's entries. Every lookup in it agrees with the callback's result. The callback was given the field's old mapping, or `[]` when the field was absent. |
| `Manifest.UpdateChangesOnlyTarget` | src/Console/InstallCommand.php:183-188 | The object gains at most the chosen field, and every other field keeps its value. |
| `Manifest.UpdateIdempotent` | src/Console/InstallCommand.php:183-188 | A second update whose callback returns its input leaves the object as the first update left it. |
| `Manifest.AddToDevDependenciesExample` | src/Console/InstallCommand.php:183-188 | Adding `a` to a `devDependencies` holding only `b` gives `a` before `b`; `dependencies` is unchanged. |
| `Manifest.WindmillCallback` | src/Console/InstallCommand.php:64-69 | The merge pins `color` to `^4.0.1` and `tailwindcss-multi-theme` to `^1.0.4`. Every other key keeps its lookup, and the result has no keys beyond the old ones and these two. |
| `Manifest.WindmillUpdate` | src/Console/InstallCommand.php:63-69 | After the windmill update, `devDependencies` is key-ascending, pins the two theme packages and keeps every other development dependency. No other manifest field changes. |
| `PhpArray.Union` | src/Console/InstallCommand.php:64-68 | PHP `+` yields a PHP array. Its keys are the keys of both operands, and it starts with the left operand unchanged. |
| `PhpArray.LookupUnion` | src/Console/InstallCommand.php:64-68 | On a key the left operand has, the left operand's value wins; any other key is looked up in the right operand. |
| `KeySort.KSort` | src/Console/InstallCommand.php:188 | The in-place sort leaves the array key-ascending and a permutation of its old contents, equal to `KSorted` of them. |
| `KeySort.SinkLast` | src/Console/InstallCommand.php:188 | One insertion pass rearranges only `a[..i + 1]`: the prefix becomes key-ascending and holds the same entries as before, the entries after `i` are unchanged, and keys stay distinct. |
| `KeySort.KSorted` | src/Console/InstallCommand.php:188 | `ksort`'s result is key-ascending and a permutation of its input with the same key set. |
| `KeySort.AscendingPermutationUnique` | src/Console/InstallCommand.php:188 | Two key-ascending arrangements of the same entries are equal, so `ksort`'s result is determined. |
| `KeySort.KSortedAscending` | src/Console/InstallCommand.php:188 | Sorting an array that is already key-ascending changes nothing. |
| `Composer.ComposerCommand` | src/Console/InstallCommand.php:147-156 | For `global` the argv is `composer require`, otherwise `php <composer> require`, followed by the packages unchanged and in order. |
| `Composer.ComposerCommandDetermines` | src/Console/InstallCommand.php:147-156 | The argv determines the packages, whether `global` was chosen, and otherwise the Composer path. |
| `Install.CommandsOnly` | src/Console/InstallCommand.php:44-46 | The Composer run and the Breeze installer are no copy, ensure, manifest-update or status step of the command's own. |
| `Install.HandleSplit` | src/Console/InstallCommand.php:42-59 | Every measure of `handle`'s plan equals that measure of the chosen replacement alone. |
| `Install.HandleDispatch` | src/Console/InstallCommand.php:42-59 | A known theme prints the success line and the build reminder exactly once each. An unknown theme prints neither and has no copy step of the command's own; a known theme always has one. |
| `Install.OnlyWindmillUpdatesManifest` | src/Console/InstallCommand.php:48-69 | `handle` calls `updateNodePackages` exactly when the theme is windmill. |
| `Install.OnlyWindmillWritesScripts` | src/Console/InstallCommand.php:84-88 | `handle` writes `css/app.css`, `js/app.js` and `js/init-alpine.js` exactly when the theme is windmill. For any other theme it writes none of them. |
| `Install.KnownThemesReplaceViews` | src/Console/InstallCommand.php:42-136 | The auth, layout and component views and the dashboard are all overwritten exactly when the theme is known. |
| `Install.ConfigAndImagesThemes` | src/Console/InstallCommand.php:42-136 | `tailwind.config.js` and the images directory are written exactly for windmill and Notus JS. For any other theme neither is written. |
| `Install.HandleManifest` | src/Console/InstallCommand.php:48-69 | After the command's own steps, the decoded manifest is the windmill update of the old one when the theme is windmill and `package.json` exists. Otherwise it is unchanged. |
| `Install.UnpreparedCopies` | src/Console/InstallCommand.php:72-88 | The only single-file copies into a directory no step ensures are windmill's `css/app.css` and `js/app.js`. Every other theme has none. |
| `Install.WindmillReports` | src/Console/InstallCommand.php:93-94 | `replaceWindmill` prints each of the two status lines exactly once. |
| `Install.WindmillWritten` | src/Console/InstallCommand.php:78-91 | `replaceWindmill` writes exactly three view directories, the dashboard, the Tailwind config, the stylesheet, the two scripts and the images directory. |
| `Install.WindmillManifest` | src/Console/InstallCommand.php:63-69 | `replaceWindmill` calls `updateNodePackages`. With `package.json` present the result is `Updated` with the windmill closure; without it the manifest is unchanged. |
| `Install.WindmillStep` | src/Console/InstallCommand.php:64-69 | The plan's manifest step is `updateNodePackages` with `WindmillCallback` on `devDependencies` when the file exists, and does nothing when it does not (lines 175-177). |
| `Install.WindmillScaffoldingKeepsManifest` | src/Console/InstallCommand.php:71-94 | After its first step, `replaceWindmill` has no further `updateNodePackages` step. |
| `Install.WindmillUnprepared` | src/Console/InstallCommand.php:72-88 | `replaceWindmill` copies `css/app.css` and `js/app.js` into directories it never ensured. Every other copy is prepared. |
| `Install.NotusjsReports` | src/Console/InstallCommand.php:117-118 | `replaceWithNotusjs` prints each of the two status lines exactly once. |
| `Install.NotusjsKeepsManifest` | src/Console/InstallCommand.php:97-119 | `replaceWithNotusjs` has no `updateNodePackages` step. |
| `Install.NotusjsWritten` | src/Console/InstallCommand.php:105-115 | `replaceWithNotusjs` writes exactly the three view directories, the dashboard, the Tailwind config and the images directory. |
| `Install.NotusjsWritesNoScripts` | src/Console/InstallCommand.php:97-119 | `replaceWithNotusjs` writes none of the windmill stylesheet and scripts. |
| `Install.NotusjsUnprepared` | src/Console/InstallCommand.php:100-112 | Every single-file copy of `replaceWithNotusjs` goes into an ensured directory or to the base path's top level. |
| `Install.TailwindComponentsReports` | src/Console/InstallCommand.php:134-135 | `replaceWithTailwindComponents` prints each of the two status lines exactly once. |
| `Install.TailwindComponentsKeepsManifest` | src/Console/InstallCommand.php:121-136 | `replaceWithTailwindComponents` has no `updateNodePackages` step. |
| `Install.TailwindComponentsWritten` | src/Console/InstallCommand.php:128-132 | `replaceWithTailwindComponents` writes exactly the three view directories and the dashboard. |
| `Install.TailwindComponentsWritesNoScripts` | src/Console/InstallCommand.php:121-136 | `replaceWithTailwindComponents` writes none of the windmill stylesheet and scripts. |
| `Install.TailwindComponentsKeepsConfigAndImages` | src/Console/InstallCommand.php:121-136 | `replaceWithTailwindComponents` writes neither the Tailwind config nor the images directory. |
| `Install.TailwindComponentsUnprepared` | src/Console/InstallCommand.php:124-132 | The dashboard copy of `replaceWithTailwindComponents` goes into a directory an earlier step ensured. |
| `Install.UnpreparedConcat` | src/Console/InstallCommand.php:72-88 | Unprepared copies of a concatenated plan are those of the first part plus those of the second part, given what the first part ensured. |

## Left out

- Manifest.Updated: the decoded `package.json` holds only fields whose value is a string-to-string mapping. Top-level fields of other types cannot be represented, for example `"private": true`, `name` and `version`. So "every other field keeps its value", here and in `Manifest.UpdateChangesOnlyTarget`, covers only mapping-valued fields. The source carries every other field through unchanged as well (lines 181-193).
- Install.CommandsOnly: the files the Composer run and the Breeze installer change are outside every measure of the plan. These are `composer.json`, `vendor/`, the Breeze scaffolding and possibly `package.json`. Written destinations, ensured directories and `Install.ManifestAfter` count only the command's own copy, ensure and `updateNodePackages` steps.
- Running processes is left out. Composer's run, its output streaming, its timeout and `shell_exec` appear only as plan steps with their arguments.
- Real filesystem effects are left out: existence checks, copying, recursive directory copies and the contents of the stubs. Copies are plan steps naming their source and destination.
- Reading and writing `package.json` is left out, including JSON decoding and encoding, `JSON_PRETTY_PRINT`, slash escaping and the trailing newline. The file is its decoded object, a map from field name to package mapping. Writes are a counter.
- A `package.json` that is not valid JSON, or whose top level is not an object, is not modelled. Neither is a dependency field that is not an object of strings. The order of the manifest's top-level fields is not kept.
- `KeySort.Less`: PHP's `ksort` with `SORT_REGULAR` compares numeric-looking keys as numbers and turns integer-like keys into integers. The model assumes package names, compared by code point, which agrees with `strcmp` on their UTF-8 bytes. Characters are Dafny `char`s rather than PHP's bytes.
- The Laravel path helpers (`resource_path`, `public_path`, `base_path`) and the package's own stub directory are names only. No absolute paths are computed.
- Console output other than the two status lines is left out. Composer's streamed output is one example.
- Option parsing is left out. `--theme` and `--composer` are parameters of `Handle`. Their defaults from the command's signature, `windmill` and `global` (lines 16-18), are not applied.
- The callback of `updateNodePackages` is a total function on PHP arrays. Closures that throw or return non-arrays are not modelled.
