/**
 * The controller part of QtBuilder: the option matrix it owns, the
 * restoring of option defaults from the persisted settings, the saving of
 * the enabled options, the numeric options, and the start/cancel state
 * machine with the classification of a finished run.
 *
 * The background build loop, the window, the file system and QSettings are
 * outside the model: a launched loop is counted in loopsLaunched, the path
 * checks arrive as booleans, and the persisted option list goes in and out
 * as a sequence of strings.
 */
module Builder {
  import opened Numbers
  import opened OptionMatrix
  import opened BuildStates

  /** One axis of the option matrix, a QMap<int, bool> member of QtBuilder. */
  class Axis {
    var modes: Modes

    ghost predicate Valid()
      reads this
    {
      Ordered(modes)
    }

    constructor()
      ensures Valid() && modes == []
    {
      modes := [];
    }

    /**
     * The inner loop of QtBuilder::setup over this axis: the entry with key
     * `option` gets the flag `option` (true unless the id is 0), and the ids
     * whose flag is set are collected as decimal strings in key order.
     */
    method Setup(option: int) returns (saved: seq<string>)
      requires Valid()
      modifies this
      ensures Valid()
      ensures modes == Overwrite(old(modes), option)
      ensures ToMap(modes) == Toggled(ToMap(old(modes)), option)
      ensures saved == Persisted(modes)
    {
      ghost var orig := modes;
      saved := [];
      var i := 0;
      while i < |modes|
        invariant 0 <= i <= |modes| == |orig|
        invariant modes[..i] == Overwrite(orig[..i], option)
        invariant modes[i..] == orig[i..]
        invariant saved == Persisted(modes[..i])
      {
        ghost var done := modes[..i];
        assert modes[i] == orig[i];
        var e := Assign(modes[i], option);
        modes := modes[i := e];
        assert modes[..i + 1] == done + [e];
        OverwriteSnoc(orig, i, option);
        assert modes[i + 1..] == orig[i + 1..];
        PersistedAppend(done, e);
        if e.on {
          saved := saved + [Number(e.id)];
        }
        i := i + 1;
      }
      assert modes[..i] == modes && orig[..i] == orig;
      OverwriteEffect(orig, option);
    }
  }

  /** The persisted option list, read once, from which option defaults are restored. */
  class QtBuildSettings {
    const settings: seq<string>

    constructor(persisted: seq<string>)
      ensures settings == persisted
    {
      settings := persisted;
    }

    /** QtBuildSettings::set: option `opt` is enabled when the list names it or its default is true. */
    method Set(modes: Axis, opt: int, def: bool)
      requires modes.Valid()
      modifies modes
      ensures modes.Valid()
      ensures ToMap(modes.modes) == old(ToMap(modes.modes))[opt := Restored(settings, opt, def)]
    {
      modes.modes := Insert(modes.modes, opt, Restored(settings, opt, def));
    }
  }

  class QtBuilder {
    var state: BuildState
    /** How many build loops have been launched in the background. */
    var loopsLaunched: nat
    const confs: Axis
    const archs: Axis
    const types: Axis
    const msvcs: Axis
    /** The four axes in the order the persisted list is written. */
    const opts: seq<Axis>
    /** Numeric options (scratch disk size, job count) and their ranges. */
    var numeric: map<int, int>
    var ranges: map<int, Range>

    /** m_opts points at the four distinct axes, in axis order. */
    ghost predicate Shape() {
      && opts == [confs, archs, types, msvcs]
      && confs != archs && confs != types && confs != msvcs
      && archs != types && archs != msvcs && types != msvcs
    }

    ghost predicate Valid()
      reads this, confs, archs, types, msvcs
    {
      Shape() && confs.Valid() && archs.Valid() && types.Valid() && msvcs.Valid()
    }

    /** The contents of the four axes, in axis order. */
    ghost function Axes(): seq<Modes>
      reads this, confs, archs, types, msvcs
    {
      [confs.modes, archs.modes, types.modes, msvcs.modes]
    }

    /** The start check of process(): every axis has an enabled option. */
    predicate AxesEnabled()
      reads this, confs, archs, types, msvcs
    {
      AnyEnabled(confs.modes) && AnyEnabled(types.modes) && AnyEnabled(archs.modes) && AnyEnabled(msvcs.modes)
    }

    /** The start check holds exactly when every axis map has a key whose flag is set. */
    lemma AxesEnabledMeaning()
      requires Valid()
      ensures AxesEnabled() <==>
              forall j :: 0 <= j < |Axes()| ==> exists k :: k in ToMap(Axes()[j]) && ToMap(Axes()[j])[k]
    {
      AnyEnabledIff(confs.modes);
      AnyEnabledIff(archs.modes);
      AnyEnabledIff(types.modes);
      AnyEnabledIff(msvcs.modes);
      var axes := Axes();
      assert axes[0] == confs.modes && axes[1] == archs.modes && axes[2] == types.modes && axes[3] == msvcs.modes;
    }

    /** The constructor: state NotStarted, axes in order confs, archs, types, msvcs, then the defaults. */
    constructor(persisted: seq<string>, cores: int)
      ensures Valid()
      ensures fresh(confs) && fresh(archs) && fresh(types) && fresh(msvcs)
      ensures state == NotStarted && loopsLaunched == 0
      ensures ToMap(confs.modes) == map[Debug := Restored(persisted, Debug, true), Release := Restored(persisted, Release, true)]
      ensures ToMap(archs.modes) == map[X86 := Restored(persisted, X86, true), X64 := Restored(persisted, X64, true)]
      ensures ToMap(types.modes) == map[Shared := Restored(persisted, Shared, true), Static := Restored(persisted, Static, true)]
      ensures ToMap(msvcs.modes) == map[MSVC2010 := Restored(persisted, MSVC2010, false), MSVC2012 := Restored(persisted, MSVC2012, false),
                                        MSVC2013 := Restored(persisted, MSVC2013, true), MSVC2015 := Restored(persisted, MSVC2015, false)]
      ensures numeric == map[RamDisk := DefaultRamDisk, Cores := DefaultCores(cores)]
      ensures ranges == map[RamDisk := RamDiskRange, Cores := Range(1, cores)]
    {
      state := NotStarted;
      loopsLaunched := 0;
      confs := new Axis();
      archs := new Axis();
      types := new Axis();
      msvcs := new Axis();
      opts := [confs, archs, types, msvcs];
      numeric := map[];
      ranges := map[];
      new;
      SetupDefaults(persisted, cores);
    }

    /** QtBuilder::setupDefaults, option flags and numeric options only. */
    method SetupDefaults(persisted: seq<string>, cores: int)
      requires Valid()
      modifies this`numeric, this`ranges, confs, archs, types, msvcs
      ensures Valid()
      ensures ToMap(msvcs.modes) == old(ToMap(msvcs.modes))[MSVC2010 := Restored(persisted, MSVC2010, false)]
                                     [MSVC2012 := Restored(persisted, MSVC2012, false)][MSVC2013 := Restored(persisted, MSVC2013, true)]
                                     [MSVC2015 := Restored(persisted, MSVC2015, false)]
      ensures ToMap(types.modes) == old(ToMap(types.modes))[Shared := Restored(persisted, Shared, true)][Static := Restored(persisted, Static, true)]
      ensures ToMap(archs.modes) == old(ToMap(archs.modes))[X86 := Restored(persisted, X86, true)][X64 := Restored(persisted, X64, true)]
      ensures ToMap(confs.modes) == old(ToMap(confs.modes))[Debug := Restored(persisted, Debug, true)][Release := Restored(persisted, Release, true)]
      ensures numeric == old(numeric)[RamDisk := DefaultRamDisk][Cores := DefaultCores(cores)]
      ensures ranges == old(ranges)[RamDisk := RamDiskRange][Cores := Range(1, cores)]
    {
      var b := new QtBuildSettings(persisted);

      b.Set(msvcs, MSVC2010, false);
      b.Set(msvcs, MSVC2012, false);
      b.Set(msvcs, MSVC2013, true);
      b.Set(msvcs, MSVC2015, false);

      b.Set(types, Shared, true);
      b.Set(types, Static, true);

      b.Set(archs, X86, true);
      b.Set(archs, X64, true);

      b.Set(confs, Debug, true);
      b.Set(confs, Release, true);

      numeric := numeric[RamDisk := DefaultRamDisk];
      numeric := numeric[Cores := DefaultCores(cores)];

      ranges := ranges[RamDisk := RamDiskRange];
      ranges := ranges[Cores := Range(1, cores)];
    }

    /** QtBuilder::option: stores the value as given; the range is not consulted. */
    method Option(opt: int, value: int)
      modifies this`numeric
      ensures numeric == old(numeric)[opt := value]
      ensures ranges == old(ranges)
    {
      numeric := numeric[opt := value];
    }

    /**
     * QtBuilder::setup: every axis is walked in axis order; the entry with
     * key `option` is overwritten, and the returned list, which is written
     * back to the settings, holds the enabled ids of all axes.
     */
    method Setup(option: int) returns (saved: seq<string>)
      requires Valid()
      modifies confs, archs, types, msvcs
      ensures Valid()
      ensures forall j :: 0 <= j < |Axes()| ==> Axes()[j] == Overwrite(old(Axes())[j], option)
      ensures forall j :: 0 <= j < |Axes()| ==> ToMap(Axes()[j]) == Toggled(ToMap(old(Axes())[j]), option)
      ensures saved == SavedList(Axes())
    {
      ghost var before := Axes();
      ghost var after := before;
      saved := [];
      var i := 0;
      while i < |opts|
        invariant SetupProgress(before, after, saved, i, option)
        invariant confs.modes == after[0] && archs.modes == after[1] && types.modes == after[2] && msvcs.modes == after[3]
      {
        assert opts[i].modes == before[i];
        var part := opts[i].Setup(option);
        SetupProgressStep(before, after, saved, i, option, opts[i].modes, part);
        after := after[i := opts[i].modes];
        saved := saved + part;
        i := i + 1;
      }
      assert after[..i] == after == Axes();
      OverwriteEachEffect(before, after, option);
    }

    /** QtBuilder::cancel: the state becomes Cancel, whatever it was. */
    method Cancel()
      modifies this`state
      ensures state == BuildState.Cancel
    {
      state := BuildState.Cancel;
    }

    /**
     * QtBuilder::process(start): a request while a loop runs cancels it;
     * otherwise a start request checks the source marker file and the target
     * directory, then every axis, and only then launches the loop.
     */
    method Process(start: bool, sourceFound: bool, targetFound: bool) returns (reaction: Reaction)
      modifies this`state, this`loopsLaunched
      ensures var t := ProcessStep(old(state), start, sourceFound, targetFound, AxesEnabled());
              && state == t.state
              && reaction == t.reaction
              && loopsLaunched == old(loopsLaunched) + (if t.launch then 1 else 0)
    {
      if Working(state) {
        Cancel();
        reaction := CancelRequested;
      } else if start {
        if !sourceFound {
          reaction := SourceMissing;
          return;
        } else if !targetFound {
          reaction := TargetMissing;
          return;
        }

        var ok := true;
        ok := ok && AnyEnabled(confs.modes);
        ok := ok && AnyEnabled(types.modes);
        ok := ok && AnyEnabled(archs.modes);
        ok := ok && AnyEnabled(msvcs.modes);

        state := if ok then Started else NotStarted;
        if ok {
          loopsLaunched := loopsLaunched + 1;
          reaction := LoopLaunched;
        } else {
          reaction := AxisEmpty;
        }
      } else {
        reaction := Ignored;
      }
    }

    /**
     * QtBuilder::processed: failed() is checked before cancelled(); both end
     * the transcript as a failure, and only a failure reports an error number.
     */
    method Processed() returns (c: Completion)
      ensures c.transcript == EndFailure <==> Failed(state) || Cancelled(state)
      ensures c.severity == Elevated <==> Failed(state)
      ensures c.severity == Warning <==> Cancelled(state)
      ensures c.errorNumber.Some? <==> Failed(state)
      ensures Failed(state) ==> c.errorNumber == Some(state.code)
      ensures c.message == MessageFor(state)
      ensures c.message.buildLogLink <==> c.transcript == EndFailure && !Cancelled(state)
    {
      var transcript, severity, errorNumber;
      if Failed(state) {
        transcript, severity, errorNumber := EndFailure, Elevated, Some(state.code);
      } else if Cancelled(state) {
        transcript, severity, errorNumber := EndFailure, Warning, None;
      } else {
        transcript, severity, errorNumber := EndSuccess, AppInfo, None;
      }
      c := Completion(transcript, severity, errorNumber, MessageFor(state));
    }
  }
}
