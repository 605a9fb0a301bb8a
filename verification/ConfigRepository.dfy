/** The configuration file as its repository sees it, with other programs writing it
    between any two of our calls. */
module ConfigRepository {
  import opened Common

  datatype Profile = Profile(usesPassword: bool, hasIdentity: bool, target: int, details: int)

  type Config = map<string, Profile>

  /** The bytes of the file, by what they decode to and how they are laid out; the hash
      of a file stands for the file itself. */
  datatype File = File(config: Option<Config>, layout: nat)

  /** What we write for a configuration. */
  function Encoded(config: Config): File {
    File(Some(config), 0)
  }

  datatype Snapshot = Snapshot(config: Config, content: File)

  /** One replacement of the file: whether it was ours, what it replaced, by what. */
  datatype Write = Write(own: bool, over: File, content: File)

  /** What may happen before a call has the lock, and whether the call then fails:
      before it does anything, or after it has replaced the file. */
  datatype Event = Event(foreign: seq<File>, fails: bool, failsLate: bool)

  /** Only other programs wrote since. */
  predicate OthersWrote(before: seq<Write>, after: seq<Write>) {
    before <= after && forall i :: |before| <= i < |after| ==> !after[i].own
  }

  /** Each of our writes since `start` replaced what we had loaded or written ourselves. */
  predicate OnlyOwnReplaced(history: seq<Write>, start: nat, loaded: File) {
    forall i :: start <= i < |history| && history[i].own ==> ReplacedOwn(history, start, loaded, i)
  }

  predicate ReplacedOwn(history: seq<Write>, start: nat, loaded: File, i: nat)
    requires i < |history|
  {
    history[i].over == loaded || exists j :: start <= j < i && history[j].own && history[j].content == history[i].over
  }

  /** The last write is ours, and only other programs wrote before it. */
  predicate OwnWrite(before: seq<Write>, after: seq<Write>, over: File, content: File) {
    && |after| > |before| && OthersWrote(before, after[..|after| - 1])
    && after[|after| - 1] == Write(true, over, content)
  }

  /** The file after other programs' writes. */
  function AfterForeign(file: File, foreign: seq<File>): File {
    if foreign == [] then file else foreign[|foreign| - 1]
  }

  /** Where a run of calls stands: how many calls have been made, the file, and whether
      its last write was ours. */
  datatype Stand = Stand(moment: nat, file: File, ours: bool)

  function Acquired(world: nat -> Event, s: Stand): Stand {
    var e := world(s.moment);
    Stand(s.moment + 1, AfterForeign(s.file, e.foreign), s.ours && e.foreign == [])
  }

  function LoadAt(world: nat -> Event, s: Stand): (Option<Snapshot>, Stand) {
    var t := Acquired(world, s);
    (if world(s.moment).fails || t.file.config == None then None else Some(Snapshot(t.file.config.value, t.file)), t)
  }

  predicate Saves(world: nat -> Event, s: Stand, expected: File) {
    var t := Acquired(world, s);
    !world(s.moment).fails && t.file.config.Some? && t.file == expected
  }

  /** Replaces the file if it is still the expected one. A save that raises has usually
      changed nothing, but may have replaced the file. */
  function SaveAt(world: nat -> Event, s: Stand, config: Config, expected: File): (Option<Snapshot>, Stand) {
    var t := Acquired(world, s);
    if !Saves(world, s, expected) then (None, t)
    else
      (if world(s.moment).failsLate then None else Some(Snapshot(config, Encoded(config))),
       Stand(t.moment, Encoded(config), true))
  }

  class Repository {
    const world: nat -> Event
    var moment: nat
    var file: File
    ghost var history: seq<Write>

    /** The file is what the last write left, and every write replaced the one before. */
    ghost predicate Valid()
      reads this
    {
      && (history != [] ==> file == history[|history| - 1].content)
      && forall i :: 1 <= i < |history| ==> history[i].over == history[i - 1].content
    }

    ghost function Standing(): Stand
      reads this
    {
      Stand(moment, file, history != [] && history[|history| - 1].own)
    }

    constructor (world: nat -> Event, file: File)
      ensures Valid() && history == [] && this.world == world && Standing() == Stand(0, file, false)
    {
      this.world, this.file, moment, history := world, file, 0, [];
    }

    method Acquire() returns (e: Event)
      requires Valid()
      modifies this
      ensures Valid() && OthersWrote(old(history), history)
      ensures e == world(old(moment)) && Standing() == Acquired(world, old(Standing()))
    {
      e := world(moment);
      moment := moment + 1;
      for i := 0 to |e.foreign|
        invariant Valid() && OthersWrote(old(history), history)
        invariant Standing() == Stand(old(moment) + 1, AfterForeign(old(file), e.foreign[..i]), old(Standing()).ours && i == 0)
      {
        history := history + [Write(false, file, e.foreign[i])];
        file := e.foreign[i];
        assert e.foreign[..i + 1][i] == e.foreign[i];
      }
      assert e.foreign[..|e.foreign|] == e.foreign;
    }

    method Load() returns (r: Option<Snapshot>)
      requires Valid()
      modifies this
      ensures Valid() && OthersWrote(old(history), history)
      ensures (r, Standing()) == LoadAt(world, old(Standing()))
    {
      var e := Acquire();
      if e.fails || file.config == None {
        return None;
      }
      r := Some(Snapshot(file.config.value, file));
    }

    method Save(config: Config, expected: File) returns (r: Option<Snapshot>)
      requires Valid()
      modifies this
      ensures Valid() && (r, Standing()) == SaveAt(world, old(Standing()), config, expected)
      ensures if Saves(world, old(Standing()), expected) then OwnWrite(old(history), history, expected, Encoded(config))
              else OthersWrote(old(history), history)
    {
      var e := Acquire();
      if e.fails || file.config == None || file != expected {
        return None;
      }
      history := history + [Write(true, file, Encoded(config))];
      file := Encoded(config);
      r := if e.failsLate then None else Some(Snapshot(config, Encoded(config)));
    }
  }
}
