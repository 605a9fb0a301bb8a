/** Switching a profile from a password to a key: staged saves, a remote step between
    them, and compensation when anything fails. */
module KeySwitch {
  import opened Common
  import opened ConfigRepository

  datatype Rollback = RolledBack | SkippedConcurrentChange | RollbackFailed

  /** What the caller is told: the call was rejected, without a rollback, up to and with
      its first save; the switch was made; or an error, which carries the rollback's
      status only when the key was or may have been installed; other installation
      errors are passed on as they are. */
  datatype Outcome =
    | Rejected
    | Switched(wasNew: bool)
    | InstallUnknown(rollback: Rollback)
    | TransitionFailed(rollback: Rollback, wasNew: bool)
    | InstallFailed

  /** What the remote side does: installing the key, the fresh login, and the record of
      it all at the end. */
  datatype Install = Installed(wasNew: bool) | Unknown | NotInstalled

  datatype Remote = Remote(install: Install, loginWorks: bool, recorded: bool)

  datatype Request = Request(name: string, password: Profile, key: Profile, replaceExisting: bool, remote: Remote)

  predicate ValidTransition(password: Profile, key: Profile) {
    password.usesPassword && !key.usesPassword && key.hasIdentity && password.target == key.target
  }

  function Staged(original: Config, q: Request): Config {
    original[q.name := q.password]
  }

  function Keyed(original: Config, q: Request): Config {
    original[q.name := q.key]
  }

  // What a call does, as a function of everything that happens around it

  function RollbackAt(world: nat -> Event, s: Stand, original: Config, owned: File): (Rollback, Stand) {
    var (current, t) := LoadAt(world, s);
    if current == None then (RollbackFailed, t)
    else if current.value.content != owned then (SkippedConcurrentChange, t)
    else
      var (saved, u) := SaveAt(world, t, original, owned);
      (if saved == None then RollbackFailed else RolledBack, u)
  }

  /** The second half: whether the key profile was saved and found working, the content
      last saved, and where that left things. */
  function SwitchAt(world: nat -> Event, s: Stand, original: Config, q: Request): (bool, File, Stand) {
    var staged := Encoded(Staged(original, q));
    var (saved, t) := SaveAt(world, s, Keyed(original, q), staged);
    if saved == None then (false, staged, t)
    else
      var owned := saved.value.content;
      var (tested, u) := LoadAt(world, t);
      if tested == None || q.name !in tested.value.config || !q.remote.loginWorks then (false, owned, u)
      else
        var (final, v) := LoadAt(world, u);
        (final.Some? && final.value.content == owned && q.remote.recorded, owned, v)
  }

  /** The outcome, the rollback if there was one, and where it all ended. */
  function CallAt(world: nat -> Event, s: Stand, q: Request): (Outcome, Option<Rollback>, Stand) {
    if !ValidTransition(q.password, q.key) then (Rejected, None, s)
    else
      var (loaded, t) := LoadAt(world, s);
      if loaded == None || q.replaceExisting != (q.name in loaded.value.config) then (Rejected, None, t)
      else
        var original := loaded.value.config;
        var (staged, u) := SaveAt(world, t, Staged(original, q), loaded.value.content);
        if staged == None then (Rejected, None, u)
        else if !q.remote.install.Installed? then
          var (rollback, v) := RollbackAt(world, u, original, Encoded(Staged(original, q)));
          (if q.remote.install.Unknown? then InstallUnknown(rollback) else InstallFailed, Some(rollback), v)
        else
          var (done, owned, v) := SwitchAt(world, u, original, q);
          if done then (Switched(q.remote.install.wasNew), None, v)
          else
            var (rollback, w) := RollbackAt(world, v, original, owned);
            (TransitionFailed(rollback, q.remote.install.wasNew), Some(rollback), w)
  }

  // What that promises

  /** The configuration that a call loads, if it loads one. */
  function Loaded(world: nat -> Event, s: Stand): Option<Snapshot> {
    LoadAt(world, s).0
  }

  /** What the call knows to have saved last, and where things stand when its rollback
      would begin. */
  function BeforeRollback(world: nat -> Event, s: Stand, q: Request): (File, Stand)
    requires Loaded(world, s).Some?
  {
    var loaded := Loaded(world, s).value;
    var u := SaveAt(world, LoadAt(world, s).1, Staged(loaded.config, q), loaded.content).1;
    if q.remote.install.Installed? then
      var (_, owned, v) := SwitchAt(world, u, loaded.config, q);
      (owned, v)
    else (Encoded(Staged(loaded.config, q)), u)
  }

  function LastSaved(world: nat -> Event, s: Stand, q: Request): File
    requires Loaded(world, s).Some?
  {
    BeforeRollback(world, s, q).0
  }

  /** A reported switch is the own key profile in the file; a rollback puts the original
      configuration back; a concurrent change is reported only of a file that is not
      the content last saved; a failed rollback leaves other programs' content or one of
      three own ones; and a rejected call wrote nothing, unless its first save was late. */
  lemma ReportsAreTrue(world: nat -> Event, s: Stand, q: Request)
    ensures var (o, rollback, end) := CallAt(world, s, q);
      && (o.Switched? ==> Loaded(world, s).Some? && end.file == Encoded(Keyed(Loaded(world, s).value.config, q))
                          && q.remote.install == Installed(o.wasNew) && q.remote.loginWorks)
      && (rollback.Some? ==> Loaded(world, s).Some?)
      && (rollback == Some(RolledBack) ==> end.file == Encoded(Loaded(world, s).value.config) && end.ours)
      && (rollback == Some(SkippedConcurrentChange) ==> end.file != LastSaved(world, s, q))
      && (o.InstallUnknown? || o.TransitionFailed? ==> rollback == Some(o.rollback))
      && (o.InstallFailed? ==> rollback.Some?)
      && (o.Rejected? ==> rollback == None && (end.ours ==> s.ours || LateStaging(world, s, q)))
      && (rollback == Some(RollbackFailed) && end.ours ==> end.file in OwnContents(Loaded(world, s).value.config, q))
  {
    hide Encoded, Staged, Keyed, ValidTransition, OwnContents, LateStaging;
    LeftBehind(world, s, q);
  }

  lemma LeftBehind(world: nat -> Event, s: Stand, q: Request)
    ensures var (o, rollback, end) := CallAt(world, s, q);
      && (o.Rejected? && end.ours ==> s.ours || LateStaging(world, s, q))
      && (rollback == Some(RollbackFailed) ==> Loaded(world, s).Some?)
      && (rollback == Some(RollbackFailed) && end.ours ==> end.file in OwnContents(Loaded(world, s).value.config, q))
  {
    hide Encoded, Staged, Keyed, ValidTransition;
  }

  /** All that a call ever writes. */
  function OwnContents(original: Config, q: Request): set<File> {
    {Encoded(original), Encoded(Staged(original, q)), Encoded(Keyed(original, q))}
  }

  /** The event between the call's second save and the one after it: the save replaced
      the file and then raised, and nobody wrote after it. */
  predicate LateSave(world: nat -> Event, s: Stand, q: Request) {
    var m := s.moment;
    && q.remote.install.Installed? && Loaded(world, s).Some?
    && !world(m + 2).fails && world(m + 2).failsLate
    && (var staged := Encoded(Staged(Loaded(world, s).value.config, q)); AfterForeign(staged, world(m + 2).foreign) == staged)
    && world(m + 3).foreign == []
  }

  /** THE EXACT CONDITION. A reported concurrent change is another program's, unless the
      second save raised after it had replaced the file and nobody wrote since: then,
      and only then, it is the call's own key profile that it reports and leaves. */
  lemma ConcurrentChangeIff(world: nat -> Event, s: Stand, q: Request)
    requires CallAt(world, s, q).1 == Some(SkippedConcurrentChange)
    ensures CallAt(world, s, q).2.ours <==> LateSave(world, s, q)
    ensures LateSave(world, s, q) ==> CallAt(world, s, q).2.file == Encoded(Keyed(Loaded(world, s).value.config, q))
  {
  }

  /** It happens: an undisturbed call whose second save raises late reports a concurrent
      change, though no other program wrote anything. */
  lemma LateSaveReported(q: Request, layout: nat) returns (world: nat -> Event, file: File)
    requires ValidTransition(q.password, q.key) && !q.replaceExisting && q.remote.install.Installed?
    ensures forall n: nat :: world(n).foreign == []
    ensures CallAt(world, Stand(0, file, false), q)
      == (TransitionFailed(SkippedConcurrentChange, q.remote.install.wasNew), Some(SkippedConcurrentChange),
          Stand(4, Encoded(map[q.name := q.key]), true))
  {
    world, file := (n: nat) => Event([], false, n == 2), File(Some(map[]), layout);
    var original: Config := map[];
    assert Staged(original, q) == map[q.name := q.password] && Keyed(original, q) == map[q.name := q.key];
    assert Staged(original, q)[q.name] != Keyed(original, q)[q.name];
  }

  /** A request is turned down before anything is read exactly if the profiles do not
      belong together: the one with a password, the other without and with a key file, for
      the same target. */
  lemma UnreadIff(world: nat -> Event, s: Stand, q: Request)
    ensures CallAt(world, s, q).2.moment == s.moment <==>
      !(q.password.usesPassword && !q.key.usesPassword && q.key.hasIdentity && q.password.target == q.key.target)
    ensures CallAt(world, s, q).2.moment == s.moment ==> CallAt(world, s, q) == (Rejected, None, s)
  {
  }

  /** The first save replaced the file and then raised. */
  predicate LateStaging(world: nat -> Event, s: Stand, q: Request) {
    var m := s.moment;
    && ValidTransition(q.password, q.key) && Loaded(world, s).Some?
    && q.replaceExisting == (q.name in Loaded(world, s).value.config)
    && AfterForeign(Loaded(world, s).value.content, world(m + 1).foreign) == Loaded(world, s).value.content
    && !world(m + 1).fails && world(m + 1).failsLate
  }

  /** THE EXACT CONDITION. A rejected call has left a write of its own if and only if its
      first save raised after it had replaced the file: there is no rollback then, and
      the password profile stays. */
  lemma RejectedLeavesIff(world: nat -> Event, s: Stand, q: Request)
    ensures var (o, rollback, end) := CallAt(world, s.(ours := false), q);
      && (o == Rejected && end.ours <==> LateStaging(world, s, q))
      && (o == Rejected && end.ours ==>
            rollback == None && end.file == Encoded(Staged(Loaded(world, s).value.config, q)))
  {
    hide Encoded, Staged, ValidTransition;
  }

  /** It happens: an undisturbed call on an empty file whose first save raises late. */
  lemma StagedProfileLeft(q: Request) returns (world: nat -> Event, file: File)
    requires ValidTransition(q.password, q.key) && !q.replaceExisting
    ensures forall n: nat :: world(n).foreign == []
    ensures file.config == Some(map[])
    ensures CallAt(world, Stand(0, file, false), q) == (Rejected, None, Stand(2, Encoded(map[q.name := q.password]), true))
  {
    world, file := (n: nat) => Event([], false, n == 1), Encoded(map[]);
    var original: Config := map[];
    assert Staged(original, q) == map[q.name := q.password];
  }

  /** A rollback from `v` finds the content last saved, and its save replaces the file
      and then raises. */
  predicate LateRollback(world: nat -> Event, v: Stand, owned: File) {
    && !world(v.moment).fails && AfterForeign(v.file, world(v.moment).foreign) == owned
    && !world(v.moment + 1).fails && AfterForeign(owned, world(v.moment + 1).foreign) == owned
    && world(v.moment + 1).failsLate
  }

  /** What the call saved is not what it found. */
  predicate Changes(original: Config, q: Request) {
    Staged(original, q) != original && Keyed(original, q) != original
  }

  /** THE EXACT CONDITION. A rollback reported as failed has put the original back all the
      same if and only if its save raised after it had replaced the file. (A request
      that changes nothing has the original in the file from the start.) */
  lemma RestoredThoughFailedIff(world: nat -> Event, s: Stand, q: Request)
    requires CallAt(world, s, q).1 == Some(RollbackFailed)
    ensures Loaded(world, s).Some?
    ensures var (owned, v) := BeforeRollback(world, s, q);
      var original := Loaded(world, s).value.config;
      var end := CallAt(world, s, q).2;
      && (LateRollback(world, v, owned) ==> end.file == Encoded(original) && end.ours)
      && (Changes(original, q) ==> (end.file == Encoded(original) && end.ours <==> LateRollback(world, v, owned)))
  {
    hide CallAt, LoadAt, SwitchAt, SaveAt, RollbackAt, Encoded, Staged, Keyed, LateRollback;
    RollbackBegins(world, s, q);
    var (owned, v) := BeforeRollback(world, s, q);
    var original := Loaded(world, s).value.config;
    EncodedConfig(original);
    EncodedConfig(Staged(original, q));
    EncodedConfig(Keyed(original, q));
    FailedRollback(world, v, original, owned);
  }

  /** A call's rollback is one from where `BeforeRollback` says. */
  lemma RollbackBegins(world: nat -> Event, s: Stand, q: Request)
    requires CallAt(world, s, q).1.Some?
    ensures Loaded(world, s).Some?
    ensures var (owned, v) := BeforeRollback(world, s, q);
      var original := Loaded(world, s).value.config;
      && (CallAt(world, s, q).1.value, CallAt(world, s, q).2) == RollbackAt(world, v, original, owned)
      && (v.ours ==> v.file in {Encoded(Staged(original, q)), Encoded(Keyed(original, q))})
      && owned in {Encoded(Staged(original, q)), Encoded(Keyed(original, q))}
  {
    hide RollbackAt, Encoded, Staged, Keyed, ValidTransition;
  }

  lemma FailedRollback(world: nat -> Event, v: Stand, original: Config, owned: File)
    requires RollbackAt(world, v, original, owned).0 == RollbackFailed && owned.config.Some?
    ensures var end := RollbackAt(world, v, original, owned).1;
      && (LateRollback(world, v, owned) ==> end == Stand(v.moment + 2, Encoded(original), true))
      && (!LateRollback(world, v, owned) && end.ours ==> v.ours && end.file == v.file)
  {
    hide Encoded;
  }

  /** It happens: an undisturbed call whose rollback puts the original back and is
      reported as failed, its save having raised late. */
  lemma RestoredThoughFailed(q: Request) returns (world: nat -> Event, file: File)
    requires ValidTransition(q.password, q.key) && !q.replaceExisting && q.remote.install.Unknown?
    ensures forall n: nat :: world(n).foreign == []
    ensures CallAt(world, Stand(0, file, false), q)
      == (InstallUnknown(RollbackFailed), Some(RollbackFailed), Stand(4, file, true))
  {
    world, file := (n: nat) => Event([], false, n == 3), Encoded(map[]);
    var original: Config := map[];
    assert Staged(original, q) == map[q.name := q.password];
  }

  /** A rollback restores the file itself, and not only its configuration, exactly when
      the file was laid out as we would have written it. */
  lemma LayoutKeptIff(world: nat -> Event, s: Stand, q: Request)
    requires CallAt(world, s, q).1 == Some(RolledBack)
    ensures Loaded(world, s).Some?
    ensures CallAt(world, s, q).2.file == Loaded(world, s).value.content
      <==> Loaded(world, s).value.content == Encoded(Loaded(world, s).value.config)
  {
    hide Encoded;
    ReportsAreTrue(world, s, q);
  }

  /** No other program writes, and none of the next seven loads and saves fails. */
  predicate Undisturbed(world: nat -> Event, from: nat) {
    forall n :: from <= n < from + 7 ==> world(n) == Event([], false, false)
  }

  lemma CalmLoad(world: nat -> Event, s: Stand)
    requires world(s.moment) == Event([], false, false) && s.file.config.Some?
    ensures LoadAt(world, s) == (Some(Snapshot(s.file.config.value, s.file)), s.(moment := s.moment + 1))
  {
  }

  lemma CalmSave(world: nat -> Event, s: Stand, config: Config)
    requires world(s.moment) == Event([], false, false) && s.file.config.Some?
    ensures SaveAt(world, s, config, s.file)
      == (Some(Snapshot(config, Encoded(config))), Stand(s.moment + 1, Encoded(config), true))
  {
  }

  /** Undisturbed, a valid request on a readable file is carried out: it ends in a
      switch when the key is installed, works and is recorded, and otherwise in the
      original configuration, with the error that belongs to it. */
  lemma UndisturbedCall(world: nat -> Event, s: Stand, q: Request)
    requires Undisturbed(world, s.moment) && ValidTransition(q.password, q.key)
    requires s.file.config.Some? && q.replaceExisting == (q.name in s.file.config.value)
    ensures var (o, rollback, end) := CallAt(world, s, q);
      var original := s.file.config.value;
      match q.remote.install
      case Installed(wasNew) =>
        if q.remote.loginWorks && q.remote.recorded then
          o == Switched(wasNew) && end == Stand(s.moment + 5, Encoded(Keyed(original, q)), true)
        else o == TransitionFailed(RolledBack, wasNew) && end.file == Encoded(original)
      case Unknown => o == InstallUnknown(RolledBack) && end.file == Encoded(original)
      case NotInstalled => o == InstallFailed && rollback == Some(RolledBack) && end.file == Encoded(original)
  {
    hide LoadAt, SaveAt, Encoded;
    var original := s.file.config.value;
    EncodedConfig(Staged(original, q));
    EncodedConfig(Keyed(original, q));
    var m := s.moment;
    CalmLoad(world, s);
    var staged := Stand(m + 2, Encoded(Staged(original, q)), true);
    CalmSave(world, s.(moment := m + 1), Staged(original, q));
    if q.remote.install.Installed? {
      CalmSave(world, staged, Keyed(original, q));
      CalmLoad(world, Stand(m + 3, Encoded(Keyed(original, q)), true));
      CalmLoad(world, Stand(m + 4, Encoded(Keyed(original, q)), true));
      CalmRollback(world, Stand(m + 4, Encoded(Keyed(original, q)), true), original);
      CalmRollback(world, Stand(m + 5, Encoded(Keyed(original, q)), true), original);
    } else {
      CalmRollback(world, staged, original);
    }
  }

  lemma EncodedConfig(config: Config)
    ensures Encoded(config).config == Some(config)
  {
  }

  lemma CalmRollback(world: nat -> Event, s: Stand, original: Config)
    requires world(s.moment) == world(s.moment + 1) == Event([], false, false) && s.file.config.Some?
    ensures RollbackAt(world, s, original, s.file) == (RolledBack, Stand(s.moment + 2, Encoded(original), true))
  {
    hide LoadAt, SaveAt, Encoded;
    CalmLoad(world, s);
    CalmSave(world, s.(moment := s.moment + 1), original);
  }

  /** It happens: a rollback that loses the layout of the file. */
  lemma LayoutLost(q: Request) returns (world: nat -> Event, file: File)
    requires ValidTransition(q.password, q.key) && !q.replaceExisting && !q.remote.install.Installed?
    ensures CallAt(world, Stand(0, file, false), q).1 == Some(RolledBack)
    ensures CallAt(world, Stand(0, file, false), q).2.file != file
    ensures CallAt(world, Stand(0, file, false), q).2.file.config == file.config
  {
    world, file := (n: nat) => Event([], false, false), File(Some(map[]), 1);
    UndisturbedCall(world, Stand(0, file, false), q);
  }

  /** When the installation itself failed, the caller gets that error and not what became
      of the rollback: two runs that look alike to it can leave the original in the
      file or the staged password profile. */
  lemma RollbackHidden(q: Request) returns (calm: nat -> Event, broken: nat -> Event, file: File)
    requires ValidTransition(q.password, q.key) && !q.replaceExisting && q.remote.install.NotInstalled?
    ensures var s := Stand(0, file, false);
      && CallAt(calm, s, q).0 == CallAt(broken, s, q).0 == InstallFailed
      && CallAt(calm, s, q).1 == Some(RolledBack) && CallAt(calm, s, q).2.file == file
      && CallAt(broken, s, q).1 == Some(RollbackFailed) && CallAt(broken, s, q).2.file == Encoded(map[q.name := q.password])
  {
    calm, broken, file := (n: nat) => Event([], false, false), (n: nat) => Event([], n == 2, false), Encoded(map[]);
    UndisturbedCall(calm, Stand(0, file, false), q);
    var original: Config := map[];
    assert Staged(original, q) == map[q.name := q.password];
  }

  // Whose content is replaced

  /** Ours alone, so far: every own write since `start` replaced what was loaded or own,
      and `owned` is the content of one of them. */
  ghost predicate Owns(history: seq<Write>, start: nat, loaded: File, owned: File) {
    OnlyOwnReplaced(history, start, loaded) && exists j :: start <= j < |history| && IsOwned(history, j, owned)
  }

  predicate IsOwned(history: seq<Write>, j: nat, owned: File)
    requires j < |history|
  {
    history[j].own && history[j].content == owned
  }

  lemma OthersKeepReplaced(before: seq<Write>, after: seq<Write>, start: nat, loaded: File)
    requires OnlyOwnReplaced(before, start, loaded) && OthersWrote(before, after)
    ensures OnlyOwnReplaced(after, start, loaded)
  {
    forall i | start <= i < |after| && after[i].own ensures ReplacedOwn(after, start, loaded, i) {
      assert i < |before| && after[i] == before[i];
      assert ReplacedOwn(before, start, loaded, i);
      assert after[..|before|] == before;
      forall j | start <= j < i ensures after[j] == before[j] {}
    }
  }

  lemma OthersKeepOwning(before: seq<Write>, after: seq<Write>, start: nat, loaded: File, owned: File)
    requires Owns(before, start, loaded, owned) && OthersWrote(before, after)
    ensures Owns(after, start, loaded, owned)
  {
    OthersKeepReplaced(before, after, start, loaded);
    var j :| start <= j < |before| && IsOwned(before, j, owned);
    assert after[j] == before[j];
    assert IsOwned(after, j, owned);
  }

  /** One more own write, over content that was owned. */
  lemma OwnWriteKeepsOwning(before: seq<Write>, after: seq<Write>, start: nat, loaded: File, owned: File, content: File)
    requires Owns(before, start, loaded, owned) && OwnWrite(before, after, owned, content)
    ensures Owns(after, start, loaded, content) && Owns(after, start, loaded, owned)
  {
    hide OthersWrote, OnlyOwnReplaced;
    var front := after[..|after| - 1];
    OthersKeepOwning(before, front, start, loaded, owned);
    var j :| start <= j < |front| && IsOwned(front, j, owned);
    assert front[j] == after[j];
    WriteOverOwn(front, after, start, loaded, j);
    assert IsOwned(after, |after| - 1, content) && IsOwned(after, j, owned);
  }

  lemma WriteOverOwn(front: seq<Write>, after: seq<Write>, start: nat, loaded: File, j: nat)
    requires OnlyOwnReplaced(front, start, loaded) && |after| == |front| + 1 && after[..|front|] == front
    requires start <= j < |front| && front[j].own && front[j].content == after[|front|].over
    ensures OnlyOwnReplaced(after, start, loaded)
  {
    forall i | 0 <= i < |front| ensures after[i] == front[i] {}
    forall i | start <= i < |after| && after[i].own ensures ReplacedOwn(after, start, loaded, i) {
      if i < |front| { assert ReplacedOwn(front, start, loaded, i); }
    }
  }

  /** The first own write, over the content loaded; or none. */
  lemma FirstWrite(before: seq<Write>, after: seq<Write>, start: nat, loaded: File, content: File, wrote: bool)
    requires start <= |before| && (forall i :: start <= i < |before| ==> !before[i].own)
    requires if wrote then OwnWrite(before, after, loaded, content) else OthersWrote(before, after)
    ensures OnlyOwnReplaced(after, start, loaded)
    ensures wrote ==> Owns(after, start, loaded, content)
  {
    if wrote {
      var front := after[..|after| - 1];
      forall i | start <= i < |front| ensures !after[i].own { assert front[i] == after[i]; }
      assert ReplacedOwn(after, start, loaded, |after| - 1);
      assert IsOwned(after, |after| - 1, content);
    }
  }

  /** A guarded save, whether it wrote or not. */
  lemma SaveKeepsOwning(before: seq<Write>, after: seq<Write>, start: nat, loaded: File, owned: File, content: File, wrote: bool)
    requires Owns(before, start, loaded, owned)
    requires if wrote then OwnWrite(before, after, owned, content) else OthersWrote(before, after)
    ensures Owns(after, start, loaded, owned) && (wrote ==> Owns(after, start, loaded, content)) && before <= after
  {
    hide Owns;
    if wrote {
      OwnWriteKeepsOwning(before, after, start, loaded, owned, content);
    } else {
      OthersKeepOwning(before, after, start, loaded, owned);
    }
  }

  lemma OwnsReplaced(history: seq<Write>, start: nat, loaded: File, owned: File)
    requires Owns(history, start, loaded, owned)
    ensures OnlyOwnReplaced(history, start, loaded)
  {
  }

  class ProfileSetup {
    const repository: Repository

    constructor (repository: Repository)
      ensures this.repository == repository
    {
      this.repository := repository;
    }

    /** Puts the original configuration back, if the file is still the one we own. */
    method RollbackLocalProfile(original: Config, owned: File, ghost start: nat, ghost loaded: File) returns (status: Rollback)
      requires repository.Valid() && Owns(repository.history, start, loaded, owned)
      modifies repository
      ensures repository.Valid() && old(repository.history) <= repository.history
      ensures OnlyOwnReplaced(repository.history, start, loaded)
      ensures (status, repository.Standing()) == RollbackAt(repository.world, old(repository.Standing()), original, owned)
    {
      hide Owns, OnlyOwnReplaced, LoadAt, SaveAt, Saves;
      ghost var before := repository.history;
      var current := repository.Load();
      SaveKeepsOwning(before, repository.history, start, loaded, owned, owned, false);
      OwnsReplaced(repository.history, start, loaded, owned);
      if current == None {
        return RollbackFailed;
      }
      if current.value.content != owned {
        return SkippedConcurrentChange;
      }
      before := repository.history;
      ghost var wrote := Saves(repository.world, repository.Standing(), owned);
      var saved := repository.Save(original, owned);
      SaveKeepsOwning(before, repository.history, start, loaded, owned, Encoded(original), wrote);
      OwnsReplaced(repository.history, start, loaded, owned);
      status := if saved == None then RollbackFailed else RolledBack;
    }

    /** From the staged profile to the tested key profile. */
    method SwitchToKey(original: Config, q: Request, staged: Snapshot, ghost start: nat, ghost loaded: File)
      returns (done: bool, owned: File)
      requires repository.Valid() && staged == Snapshot(Staged(original, q), Encoded(Staged(original, q)))
      requires Owns(repository.history, start, loaded, staged.content)
      modifies repository
      ensures repository.Valid() && old(repository.history) <= repository.history
      ensures Owns(repository.history, start, loaded, owned)
      ensures (done, owned, repository.Standing()) == SwitchAt(repository.world, old(repository.Standing()), original, q)
    {
      hide Owns, OthersWrote, LoadAt, SaveAt, Saves, Encoded;
      assert staged.config[q.name := q.key] == Keyed(original, q);
      ghost var before := repository.history;
      ghost var wrote := Saves(repository.world, repository.Standing(), staged.content);
      SavedContent(repository.world, repository.Standing(), Keyed(original, q), staged.content);
      var saved := repository.Save(staged.config[q.name := q.key], staged.content);
      SaveKeepsOwning(before, repository.history, start, loaded, staged.content, Encoded(Keyed(original, q)), wrote);
      done, owned := false, staged.content;
      if saved == None {
        return;
      }
      owned := saved.value.content;
      before := repository.history;
      var current := repository.Load();
      SaveKeepsOwning(before, repository.history, start, loaded, owned, owned, false);
      if current == None || q.name !in current.value.config || !q.remote.loginWorks {
        return;
      }
      before := repository.history;
      var final := repository.Load();
      SaveKeepsOwning(before, repository.history, start, loaded, owned, owned, false);
      done := final.Some? && final.value.content == owned && q.remote.recorded;
    }

    /** THE KEY SWITCH, with other programs writing the file between any two of its
        steps. Outcome, rollback and file are those of the specification, and no write of
        the call ever replaces content that it did not itself load or write. */
    method InstallPublicKeyAndSwitch(q: Request) returns (o: Outcome, ghost rollback: Option<Rollback>)
      requires repository.Valid()
      modifies repository
      ensures repository.Valid() && old(repository.history) <= repository.history
      ensures (o, rollback, repository.Standing()) == CallAt(repository.world, old(repository.Standing()), q)
      ensures var loaded := Loaded(repository.world, old(repository.Standing()));
        if loaded.Some? then OnlyOwnReplaced(repository.history, |old(repository.history)|, loaded.value.content)
        else OthersWrote(old(repository.history), repository.history)
    {
      hide Owns, OnlyOwnReplaced, LoadAt, SaveAt, Saves, RollbackAt, SwitchAt, Encoded;
      ghost var start, first := |repository.history|, Loaded(repository.world, repository.Standing());
      rollback := None;
      if !ValidTransition(q.password, q.key) {
        NothingReplaced(repository.history, first);
        return Rejected, None;
      }
      var loaded := repository.Load();
      if loaded == None {
        return Rejected, None;
      }
      ghost var content := loaded.value.content;
      ghost var before := repository.history;
      FirstWrite(before, before, start, content, content, false);
      if q.replaceExisting != (q.name in loaded.value.config) {
        return Rejected, None;
      }
      var original := loaded.value.config;
      ghost var wrote := Saves(repository.world, repository.Standing(), content);
      SavedContent(repository.world, repository.Standing(), Staged(original, q), content);
      var staged := repository.Save(Staged(original, q), loaded.value.content);
      FirstWrite(before, repository.history, start, content, Encoded(Staged(original, q)), wrote);
      GrewBy(before, repository.history, wrote, content, Encoded(Staged(original, q)));
      if staged == None {
        return Rejected, None;
      }
      var status;
      if !q.remote.install.Installed? {
        status := RollbackLocalProfile(original, staged.value.content, start, content);
        return if q.remote.install.Unknown? then InstallUnknown(status) else InstallFailed, Some(status);
      }
      var done, owned := SwitchToKey(original, q, staged.value, start, content);
      OwnsReplaced(repository.history, start, content, owned);
      if done {
        return Switched(q.remote.install.wasNew), None;
      }
      status := RollbackLocalProfile(original, owned, start, content);
      o, rollback := TransitionFailed(status, q.remote.install.wasNew), Some(status);
    }
  }

  lemma SavedContent(world: nat -> Event, s: Stand, config: Config, expected: File)
    ensures SaveAt(world, s, config, expected).0.Some? ==>
      Saves(world, s, expected) && SaveAt(world, s, config, expected).0 == Some(Snapshot(config, Encoded(config)))
  {
  }

  lemma GrewBy(before: seq<Write>, after: seq<Write>, wrote: bool, over: File, content: File)
    requires if wrote then OwnWrite(before, after, over, content) else OthersWrote(before, after)
    ensures before <= after
  {
  }

  lemma NothingReplaced(history: seq<Write>, loaded: Option<Snapshot>)
    ensures OthersWrote(history, history)
    ensures loaded.Some? ==> OnlyOwnReplaced(history, |history|, loaded.value.content)
  {
  }
}
