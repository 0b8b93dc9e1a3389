# QtBuilder option matrix and run-state controller, in Dafny

QtBuilder is a small Qt application that builds the Qt libraries unattended.
It can build several combinations of configuration (Debug, Release),
architecture (X86, X64), linkage (Shared, Static) and compiler (MSVC 2010 to
2015). This project models the controller core of the `QtBuilder` window
class and proves its properties. The core covers:

- **the option matrix.** Four axes, each a map of type `Modes` from an
  option id to an enabled flag. `m_opts` lists the axes in a fixed order.
- **defaults.** Option defaults are restored from the persisted option list
  (`QtBuildSettings::set`, `setupDefaults`).
- **saving.** `setup` writes the enabled options back as a list of decimal
  ids.
- **numeric options.** These are the scratch-disk size and the job count,
  each with a declared range. `option` sets one of them.
- **start/cancel.** `process` either cancels a running build or validates
  the two paths and the four axes before launching the build loop. `cancel`
  sets the state to `Cancel`.
- **completion.** `processed` and `message` classify the final state as a
  failure, a cancellation or a success.

Files:

- `numbers.dfy`, module `Numbers`: `QString::number` in base 10, and a proof
  that it is injective. Because of that proof, the persisted list contains an
  option's string exactly when it contains that option.
- `option_matrix.dfy`, module `OptionMatrix`:
  - an axis is a sequence of entries with strictly increasing ids. A `QMap`
    is ordered by key and iterates in key order. `ToMap` gives the map the
    sequence stands for.
  - `QMap::insert`, `QMap::keys(true)`, the overwrite done by `setup`, the
    persisted list, and the save-then-restore round trip.
  - the numeric defaults and their ranges.
- `build_states.dfy`, module `BuildStates`:
  - the run state.
  - `process` as a transition function.
  - the message selection of `message`.
- `builder.dfy`, module `Builder`: the classes that are updated in place.
  - `Axis`: one `QMap` member, with the inner loop of `setup`.
  - `QtBuildSettings`.
  - `QtBuilder`: the state, the launched-loop counter, the four axes, `m_opts`
    and the numeric option maps. `SetupDefaults`, `Setup`, `Process` and
    `Processed` are proved against the functions above. `Option` and
    `Cancel` state their new state directly.

Inputs that come from outside the modelled code are treated as follows:

- The file-system checks of `process` are boolean parameters. They report
  whether the source marker file and the target directory exist.
- `QThread::idealThreadCount()` is the parameter `cores`.
- The persisted option list is a `seq<string>`. It is passed in when the
  builder is constructed and returned by `Setup`.
- Launching the background loop is counted in `loopsLaunched`.

The type `Modes`, the enum `Options`, the enum `States` and the predicates `working()`,
`failed()` and `cancelled()` are declared in `qtbuilder.h`, which is not
part of this model. The model makes these assumptions:

- `Modes` is `QMap<int, bool>`, so an axis is ordered by key and is walked
  in key order. The claims that `setup` saves ids in key order depend on
  this; with a `QHash` the order would be unspecified.
- The option ids are distinct stand-in values.
- The run state is `NotStarted | Started | Cancel | Success | Failure(code)`.
  `code` is the numeric state value that `processed` prints as the error
  number.
- `working()` holds in `Started`, `failed()` in `Failure`, and `cancelled()`
  in `Cancel`.

In some places the surrounding code suggests a stricter reading than the
code gives. The model follows the code:

- `option` stores any value. It does not reject values outside the option's
  range, although `setupDefaults` declares a range for each numeric option
  in `m_range` (qtbuilder.cpp:73-74) and nothing in the modelled code reads it.
- `cancel` sets `Cancel` whatever the state was. It is not a no-op outside a
  running build. Its two callers call it only after `working()` holds
  (qtbuilder.cpp:113-121 and 191-193).
- When an axis has no enabled option, `process` only resets the start button
  and sets `NotStarted`. It writes no warning to the log.

## Model

| member | source | states |
|---|---|---|
| `Numbers.Number` | qtbuilder.cpp:45 | The decimal rendering of an option id has at least one character and starts with '-' exactly when the id is negative. |
| `Numbers.DigitsInjective` | qtbuilder.cpp:45 | Two naturals with the same decimal digits are equal. |
| `Numbers.NumberInjective` | qtbuilder.cpp:45 | Distinct option ids are rendered as distinct strings, so `settings.contains(QString::number(opt))` tests exactly for `opt`. |
| `OptionMatrix.Insert` | qtbuilder.cpp:45 | `QMap::insert` keeps the axis in key order and leaves it mapping `opt` to the new flag, with every other key unchanged. |
| `OptionMatrix.RestoredFromIds` | qtbuilder.cpp:45 | Restoring from a list of rendered ids enables an option exactly when its id is in the list or its default is true. |
| `OptionMatrix.EnabledIdsExact` | qtbuilder.cpp:212-215 | `keys(true)` lists exactly the keys whose flag is set, in strictly ascending order. |
| `OptionMatrix.AnyEnabledIff` | qtbuilder.cpp:212-215 | `keys(true)` is non-empty exactly when some key of the axis has its flag set. |
| `OptionMatrix.OverwriteEffect` | qtbuilder.cpp:166-168 | Walking an axis in `setup(option)` keeps it ordered. It changes only the entry whose key equals `option`, if there is one, and that entry's flag becomes `option != 0`. |
| `OptionMatrix.NamesMember` | qtbuilder.cpp:169-170 | A decimal id is in the list of rendered ids exactly when the id is in the id list. |
| `OptionMatrix.PersistedExact` | qtbuilder.cpp:166-171 | The strings one axis contributes to the saved list name exactly the keys whose flag is set. |
| `OptionMatrix.SavedListExact` | qtbuilder.cpp:164-172 | The saved list (axes in order, keys in order) contains an id's string exactly when some axis has that id enabled. |
| `OptionMatrix.RestoreAfterSave` | qtbuilder.cpp:43-46 | Restoring from the list that `setup` saved gives every option its saved flag, or true if its default is true. This holds when the option's id belongs to one axis only. |
| `OptionMatrix.DefaultCores` | qtbuilder.cpp:71-74 | The default job count `qMax(cores-1, 1)` is at least 1. It lies in its range `[1, cores]` exactly when `cores >= 1`, and it is `cores - 1` once `cores >= 2`. It is exactly 1 when `cores <= 2`, which includes the -1 that `QThread::idealThreadCount()` reports when it cannot count the cores. |
| `OptionMatrix.DefaultRamDiskInRange` | qtbuilder.cpp:70-73 | The default scratch-disk size 4 lies in its range [3, 10]. |
| `BuildStates.ProcessStep` | qtbuilder.cpp:189-225 | A request while working sets `Cancel` and launches nothing. The state becomes `Started`, and a loop is launched, exactly when the builder was not working, the request is a start, both paths exist and every axis has an enabled option. A stop request while idle changes nothing. A missing source marker or target path leaves the state as it was. When only the axis check fails, the state becomes `NotStarted`. |
| `BuildStates.MessageFor` | qtbuilder.cpp:254-268 | The headline is "cancelled" exactly when cancelled, "errors" exactly when failed, and "success" otherwise. The build-log link is attached exactly when failed. |
| `Builder.Axis.Setup` | qtbuilder.cpp:166-171 | The inner loop of `setup` leaves the axis as the overwrite of its old contents. It returns the decimal ids of the enabled keys of the updated axis, in key order. |
| `Builder.QtBuildSettings.constructor` | qtbuilder.cpp:39-42 | The settings object holds the persisted option list. |
| `Builder.QtBuildSettings.Set` | qtbuilder.cpp:43-46 | The axis map gets `opt := (list contains number(opt)) or def`. Every other key is unchanged. |
| `Builder.QtBuilder.AxesEnabledMeaning` | qtbuilder.cpp:211-217 | The start check of `process` holds exactly when every axis map has a key whose flag is set. |
| `Builder.QtBuilder.constructor` | qtbuilder.cpp:87-100 | A new builder starts in `NotStarted` with no loop launched. Its four distinct axes are listed in the order confs, archs, types, msvcs. Each axis holds exactly its restored defaults, and the numeric options and ranges hold their defaults. |
| `Builder.QtBuilder.SetupDefaults` | qtbuilder.cpp:51-74 | Each default option is inserted with its restored flag. RamDisk is set to 4 with range [3, 10]. Cores is set to `qMax(cores-1, 1)` with range [1, cores]. |
| `Builder.QtBuilder.Option` | qtbuilder.cpp:154-157 | Only the numeric option `opt` changes, to the given value. The ranges are neither consulted nor changed. |
| `Builder.QtBuilder.Setup` | qtbuilder.cpp:159-174 | Every axis is overwritten as `OverwriteEffect` describes. The returned list is exactly the enabled ids of all axes, in axis order and then key order. |
| `Builder.QtBuilder.Cancel` | qtbuilder.cpp:183-187 | The state becomes `Cancel`. |
| `Builder.QtBuilder.Process` | qtbuilder.cpp:189-225 | The new state, the reaction and the launched-loop count are those that `ProcessStep` gives for the old state, the path checks and the axis check. |
| `Builder.QtBuilder.Processed` | qtbuilder.cpp:227-252 | The transcript ends as a failure exactly when the run failed or was cancelled. The summary is `Elevated` exactly when failed and `Warning` exactly when cancelled. An error number, the failure code, is reported exactly when failed. The message is the one `message()` selects, and it links the build log exactly when the transcript failed and the run was not cancelled. |

## Left out

- The background build loop (`loop()`), `QtConcurrent::run` and the `m_loop` future are left out. Launching a loop is counted in `loopsLaunched`, and the terminal state is taken as given.
- The window and its widgets are left out: `show`, geometry, icon and title, `createUi`, `disable`, `m_go->setOff()`, `m_opt->setDisabled`, and `QMessageBox`. `process` reports what it did to them through a `Reaction` value.
- `closeEvent` and `end` are left out. The close path rewires signals under a mutex and is about concurrency.
- The mutex in `setup` and the `cancelling()` signal emitted by `cancel` are left out, because the model is sequential.
- QSettings access is left out: the library version, source and target paths read in `setupDefaults`, `sourceDir`, `tgtLibDir`, and the `Q_SET_GET`/`Q_SET_SET` calls. The persisted option list is passed in and returned as a value.
- File-system checks (`QFileInfo::exists`, `QDir::exists`, `cleanPath`, `toNativeSeparators`) become boolean inputs.
- The process output handlers `procLog`, `procError` and `procOutput` are left out. They depend on `sender()` and on `QtAppLog::clean`, which are not part of this model.
- `enumName` and `lastState` (meta-enum names) are left out, and so is the text of log and message strings. This covers the zero-padded error number, the HTML and the file links. Completions and messages are modelled as their classification: how the transcript ends, the severity, the error code, the headline and whether the build-log link is attached.
- `Builder.QtBuilder.Processed` returns the message the dialog would show. It does not model the log entry that `disable(false)` writes or the start-button reset.
