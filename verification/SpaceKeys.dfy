/**
  The key of a space (internal/keys): a process finds it in the key file, or publishes
  one there with a link that never replaces an existing file. Any number of processes
  may start at once against one file and one database row; each may fail or crash at
  any point.
*/
module SpaceKeys {
  import opened Common

  /** Private keys are numbers; `pub` is key derivation, of which nothing is assumed. */
  type Private = nat
  type Public = nat

  datatype File = Missing | Corrupt | Holds(key: Private)

  /** What MASTER_PASSWORD makes of the row: not set, no use, or a key. */
  datatype Password = NotSet | WrongPassword | Decrypts(key: Private)

  /** SPACE_IDENTITY_IMPORT: its public key can be read without the passphrase, its private key only with it. */
  datatype Import = NoImport | Undecodable | Blob(pub: Public, key: Option<Private>)

  /** What a process starts with. The legacy row of the database holds a public key; it is never written. */
  datatype Setup = Setup(password: Password, blob: Import, ephemeral: bool)

  /** checkImportMatches. */
  predicate ImportMatches(s: Setup, p: Public) {
    s.blob.NoImport? || (s.blob.Blob? && s.blob.pub == p)
  }

  predicate RowMatches(row: Option<Public>, p: Public) {
    row.None? || row.value == p
  }

  /** useFile: whether a key found in the file is accepted. */
  predicate Acceptable(s: Setup, row: Option<Public>, p: Public) {
    RowMatches(row, p) && ImportMatches(s, p)
  }

  function FromImport(pub: Private -> Public, s: Setup): Option<Private> {
    if s.blob.Blob? && s.blob.key.Some? && pub(s.blob.key.value) == s.blob.pub then s.blob.key else None
  }

  function FromRow(pub: Private -> Public, s: Setup, row: Public): Option<Private> {
    if s.password.Decrypts? then
      if pub(s.password.key) == row && ImportMatches(s, row) then Some(s.password.key) else None
    else
      var key := FromImport(pub, s);
      if key.Some? && pub(key.value) == row then key else None
  }

  /** The key to publish when there is no file: `generated` is the new one, if it comes to that. */
  function Chosen(pub: Private -> Public, s: Setup, row: Option<Public>, hasUsers: bool, generated: Private): Option<Private> {
    if row.Some? then FromRow(pub, s, row.value)
    else if !s.blob.NoImport? then FromImport(pub, s)
    else if hasUsers then None
    else Some(generated)
  }

  /** A key that comes from what the process was started with: the password opens the row to it, or the import holds it. */
  predicate Supplied(pub: Private -> Public, s: Setup, key: Private) {
    || s.password == Decrypts(key)
    || (s.blob.Blob? && s.blob.key == Some(key) && s.blob.pub == pub(key))
  }

  /**
    Without a file: a new key is taken exactly when there is no row, no import and no
    user; with users alone there is none. With an import and no row the import's key is
    taken. With a row it has to be the row's: what the password opens, unless the import
    disagrees; or, when the password opens nothing, the import's.
  */
  lemma KeyIsChosen(pub: Private -> Public, s: Setup, row: Option<Public>, hasUsers: bool, generated: Private, key: Private)
    ensures row == None && s.blob == NoImport ==>
              Chosen(pub, s, row, hasUsers, generated) == if hasUsers then None else Some(generated)
    ensures row == None && s.blob != NoImport ==>
              (Chosen(pub, s, row, hasUsers, generated) == Some(key) <==> s.blob == Blob(pub(key), Some(key)))
    ensures row != None ==>
              (Chosen(pub, s, row, hasUsers, generated) == Some(key) <==>
               && Some(pub(key)) == row
               && if s.password.Decrypts? then
                    s.password == Decrypts(key) && (s.blob == NoImport || (s.blob.Blob? && s.blob.pub == pub(key)))
                  else s.blob == Blob(pub(key), Some(key)))
  {
  }

  // ----- one process, with nobody else at the file -----

  class KeyFile {
    var file: File

    constructor (file: File)
      ensures this.file == file
    {
      this.file := file;
    }

    /** A damaged file is an error, never a missing one. */
    method Load() returns (key: Option<Private>, ok: bool)
      ensures ok <==> !file.Corrupt?
      ensures key == if file.Holds? then Some(file.key) else None
    {
      ok := !file.Corrupt?;
      key := if file.Holds? then Some(file.key) else None;
    }

    /** `synced`: the directory could be synced after the link; the file is there either way. */
    method Publish(key: Private, synced: bool) returns (taken: bool, ok: bool)
      modifies this
      ensures taken <==> !old(file).Missing?
      ensures file == if taken then old(file) else Holds(key)
      ensures ok <==> !taken && synced
    {
      taken := !file.Missing?;
      if !taken {
        file := Holds(key);
      }
      ok := !taken && synced;
    }
  }

  class KeyService {
    const pub: Private -> Public
    const setup: Setup
    const disk: KeyFile
    var key: Option<Private>

    constructor (pub: Private -> Public, setup: Setup, disk: KeyFile)
      ensures this.pub == pub && this.setup == setup && this.disk == disk && key == None
    {
      this.pub, this.setup, this.disk := pub, setup, disk;
      key := None;
    }

    method UseFile(found: Private, row: Option<Public>) returns (ok: bool)
      modifies this
      ensures ok <==> Acceptable(setup, row, pub(found))
      ensures key == if ok then Some(found) else old(key)
    {
      ok := RowMatches(row, pub(found)) && ImportMatches(setup, pub(found));
      if ok {
        key := Some(found);
      }
    }

    method Persist(chosen: Private, row: Option<Public>, synced: bool) returns (ok: bool)
      requires disk.file.Missing?
      modifies this, disk
      ensures ok <==> !setup.ephemeral && synced
      ensures disk.file == if setup.ephemeral then Missing else Holds(chosen)
      ensures key == if ok then Some(chosen) else old(key)
    {
      if setup.ephemeral {
        return false;
      }
      var there, published := disk.Publish(chosen, synced);
      if !published {
        return false;
      }
      var written, loaded := disk.Load();
      if !loaded || written.None? || pub(written.value) != pub(chosen) {
        return false;
      }
      key := written;
      return true;
    }

    /** An existing file is never touched; without one, the chosen key is published. */
    method Initialize(row: Option<Public>, hasUsers: bool, generated: Private, synced: bool) returns (ok: bool)
      modifies this, disk
      ensures match old(disk.file)
              case Corrupt => !ok
              case Holds(found) => ok <==> Acceptable(setup, row, pub(found))
              case Missing => ok <==> Chosen(pub, setup, row, hasUsers, generated).Some? && !setup.ephemeral && synced
      ensures ok ==> key.Some? && disk.file == Holds(key.value) && Acceptable(setup, row, pub(key.value))
      ensures !ok ==> key == old(key)
      ensures !old(disk.file).Missing? ==> disk.file == old(disk.file)
      ensures old(disk.file).Missing? ==>
                var chosen := Chosen(pub, setup, row, hasUsers, generated);
                disk.file == if chosen.Some? && !setup.ephemeral then Holds(chosen.value) else Missing
    {
      var found, loaded := disk.Load();
      if !loaded {
        return false;
      }
      if found.Some? {
        ok := UseFile(found.value, row);
        return;
      }
      var chosen := Chosen(pub, setup, row, hasUsers, generated);
      if chosen.None? {
        return false;
      }
      ok := Persist(chosen.value, row, synced);
    }
  }

  // ----- any number of processes -----

  /** `Publishing` has its key, `Written` linked its file, `Beaten` found one there; both read the file back. */
  datatype Stage = Starting | NoFile | Publishing(key: Private) | Written(key: Private) | Beaten | Ready(key: Private) | Down

  datatype Process = Process(setup: Setup, stage: Stage)

  datatype World = World(file: File, row: Option<Public>, processes: map<nat, Process>)

  datatype Action =
    | Launch(p: nat, setup: Setup)
    | Load(p: nat)
    | Choose(p: nat, hasUsers: bool, generated: Private)
    | Link(p: nat)
    | ReadBack(p: nat)
    | Crash(p: nat)        // any error or kill, also between the link and the read back

  function Go(w: World, p: nat, s: Stage): World
    requires p in w.processes
  {
    w.(processes := w.processes[p := w.processes[p].(stage := s)])
  }

  function UseFound(pub: Private -> Public, w: World, p: nat): World
    requires p in w.processes && w.file.Holds?
  {
    Go(w, p, if Acceptable(w.processes[p].setup, w.row, pub(w.file.key)) then Ready(w.file.key) else Down)
  }

  function Step(pub: Private -> Public, w: World, a: Action): World {
    if a.Launch? then
      if a.p in w.processes then w else w.(processes := w.processes[a.p := Process(a.setup, Starting)])
    else if a.p !in w.processes then w
    else
      var x := w.processes[a.p];
      match a
      case Load(p) =>
        if !x.stage.Starting? then w
        else if w.file.Corrupt? then Go(w, p, Down)
        else if w.file.Missing? then Go(w, p, NoFile)
        else UseFound(pub, w, p)
      case Choose(p, hasUsers, generated) =>
        if !x.stage.NoFile? then w
        else
          var key := Chosen(pub, x.setup, w.row, hasUsers, generated);
          Go(w, p, if key.None? || x.setup.ephemeral then Down else Publishing(key.value))
      case Link(p) =>
        if !x.stage.Publishing? then w
        else if w.file.Missing? then Go(w, p, Written(x.stage.key)).(file := Holds(x.stage.key))
        else Go(w, p, Beaten)
      case ReadBack(p) =>
        if x.stage.Beaten? then (if w.file.Holds? then UseFound(pub, w, p) else Go(w, p, Down))
        else if x.stage.Written? then
          Go(w, p, if w.file.Holds? && pub(w.file.key) == pub(x.stage.key) then Ready(w.file.key) else Down)
        else w
      case Crash(p) => Go(w, p, Down)
      case Launch(_, _) => w
  }

  function Run(pub: Private -> Public, w: World, actions: seq<Action>): World
    decreases |actions|
  {
    if actions == [] then w else Run(pub, Step(pub, w, actions[0]), actions[1..])
  }

  /** What a process at this stage has established about its key. */
  predicate StageFits(pub: Private -> Public, w: World, x: Process) {
    match x.stage
    case Publishing(key) => Acceptable(x.setup, w.row, pub(key))
    case Written(key) => Acceptable(x.setup, w.row, pub(key)) && w.file == Holds(key)
    case Ready(key) => Acceptable(x.setup, w.row, pub(key)) && w.file == Holds(key)
    case _ => true
  }

  ghost predicate Inv(pub: Private -> Public, w: World) {
    forall p :: p in w.processes ==> StageFits(pub, w, w.processes[p])
  }

  /** A key chosen to be published fits the row and the import, whichever it was taken from. */
  lemma ChosenIsAcceptable(pub: Private -> Public, s: Setup, row: Option<Public>, hasUsers: bool, generated: Private)
    ensures
      var key := Chosen(pub, s, row, hasUsers, generated);
      key.Some? ==> Acceptable(s, row, pub(key.value))
  {
  }

  lemma StepKeepsInv(pub: Private -> Public, w: World, a: Action)
    requires Inv(pub, w)
    ensures Inv(pub, Step(pub, w, a))
    ensures !w.file.Missing? ==> Step(pub, w, a).file == w.file
    ensures Step(pub, w, a).row == w.row
  {
    if a.Choose? && a.p in w.processes {
      ChosenIsAcceptable(pub, w.processes[a.p].setup, w.row, a.hasUsers, a.generated);
    }
    var w' := Step(pub, w, a);
    forall p | p in w'.processes ensures StageFits(pub, w', w'.processes[p]) {
      assert p in w.processes ==> StageFits(pub, w, w.processes[p]);
    }
  }

  lemma {:induction false} RunKeepsInv(pub: Private -> Public, w: World, actions: seq<Action>)
    requires Inv(pub, w)
    ensures Inv(pub, Run(pub, w, actions))
    ensures !w.file.Missing? ==> Run(pub, w, actions).file == w.file
    ensures Run(pub, w, actions).row == w.row
    decreases |actions|
  {
    hide Step, Inv;
    if actions != [] {
      StepKeepsInv(pub, w, actions[0]);
      RunKeepsInv(pub, Step(pub, w, actions[0]), actions[1..]);
    }
  }

  /**
    Key agreement: whatever was in the file and however the processes interleave, fail
    and crash, all that come up have one key. It is the file's, and has the public key
    of the row and of every import they were given.
  */
  lemma KeyAgreement(pub: Private -> Public, file: File, row: Option<Public>, actions: seq<Action>, p: nat, q: nat)
    ensures
      var w := Run(pub, World(file, row, map[]), actions);
      p in w.processes && q in w.processes && w.processes[p].stage.Ready? && w.processes[q].stage.Ready? ==>
        var x := w.processes[p];
        && w.processes[q].stage == x.stage && w.file == Holds(x.stage.key)
        && row in {None, Some(pub(x.stage.key))}
        && (x.setup.blob == NoImport || (x.setup.blob.Blob? && x.setup.blob.pub == pub(x.stage.key)))
  {
    var w := World(file, row, map[]);
    assert Inv(pub, w);
    RunKeepsInv(pub, w, actions);
  }

  /** A file that is there, damaged or not, is never replaced, and nobody comes up on a damaged one. */
  lemma FileIsNeverReplaced(pub: Private -> Public, file: File, row: Option<Public>, before: seq<Action>, after: seq<Action>, p: nat)
    ensures
      var w := Run(pub, World(file, row, map[]), before);
      var w' := Run(pub, w, after);
      && (!w.file.Missing? ==> w'.file == w.file)
      && (file.Corrupt? ==> w'.file.Corrupt? && !(p in w'.processes && w'.processes[p].stage.Ready?))
  {
    var start := World(file, row, map[]);
    assert Inv(pub, start);
    RunKeepsInv(pub, start, before);
    RunKeepsInv(pub, Run(pub, start, before), after);
  }

  // ----- where a key comes from -----

  /** The key was in the file from the start, was supplied to a process, or was made when there was no row, no import and no user. */
  ghost predicate HasOrigin(pub: Private -> Public, file: File, row: Option<Public>, actions: seq<Action>, key: Private) {
    || file == Holds(key)
    || (exists p, s :: Launch(p, s) in actions && Supplied(pub, s, key))
    || (row == None && exists p, s :: Launch(p, s) in actions && s.blob == NoImport && Choose(p, false, key) in actions)
  }

  /** What a process holds was launched, and every key it has published or is about to has an origin. */
  ghost predicate Traced(pub: Private -> Public, w: World, file: File, row: Option<Public>, past: seq<Action>) {
    && w.row == row
    && (w.file.Holds? ==> HasOrigin(pub, file, row, past, w.file.key))
    && forall p :: p in w.processes ==>
         && Launch(p, w.processes[p].setup) in past
         && (w.processes[p].stage.Publishing? ==> HasOrigin(pub, file, row, past, w.processes[p].stage.key))
  }

  lemma OriginStays(pub: Private -> Public, file: File, row: Option<Public>, past: seq<Action>, a: Action, key: Private)
    requires HasOrigin(pub, file, row, past, key)
    ensures HasOrigin(pub, file, row, past + [a], key)
  {
    forall b | b in past ensures b in past + [a] {
    }
  }

  lemma ChosenHasOrigin(pub: Private -> Public, w: World, file: File, row: Option<Public>, past: seq<Action>, a: Action)
    requires Traced(pub, w, file, row, past) && a.Choose? && a.p in w.processes
    ensures
      var key := Chosen(pub, w.processes[a.p].setup, row, a.hasUsers, a.generated);
      key.Some? ==> HasOrigin(pub, file, row, past + [a], key.value)
  {
    var s := w.processes[a.p].setup;
    var key := Chosen(pub, s, row, a.hasUsers, a.generated);
    if key.Some? {
      assert Launch(a.p, s) in past + [a];
      assert a == Choose(a.p, a.hasUsers, a.generated) && a in past + [a];
      assert Supplied(pub, s, key.value) || (row == None && s.blob == NoImport && !a.hasUsers && key.value == a.generated);
    }
  }

  lemma StepTraced(pub: Private -> Public, w: World, file: File, row: Option<Public>, past: seq<Action>, a: Action)
    requires Traced(pub, w, file, row, past)
    ensures Traced(pub, Step(pub, w, a), file, row, past + [a])
  {
    hide HasOrigin, Chosen;
    var w' := Step(pub, w, a);
    if a.Choose? && a.p in w.processes {
      ChosenHasOrigin(pub, w, file, row, past, a);
    }
    if w'.file.Holds? {
      assert w'.file == w.file || (a.p in w.processes && w.processes[a.p].stage == Publishing(w'.file.key));
      OriginStays(pub, file, row, past, a, w'.file.key);
    }
    forall p | p in w'.processes
      ensures Launch(p, w'.processes[p].setup) in past + [a]
      ensures w'.processes[p].stage.Publishing? ==> HasOrigin(pub, file, row, past + [a], w'.processes[p].stage.key)
    {
      if p in w.processes && w'.processes[p] == w.processes[p] && w.processes[p].stage.Publishing? {
        OriginStays(pub, file, row, past, a, w.processes[p].stage.key);
      }
    }
  }

  lemma {:induction false} RunTraced(pub: Private -> Public, w: World, file: File, row: Option<Public>, past: seq<Action>, actions: seq<Action>)
    requires Traced(pub, w, file, row, past)
    ensures Traced(pub, Run(pub, w, actions), file, row, past + actions)
    decreases |actions|
  {
    hide Step, Traced;
    if actions == [] {
      assert past + actions == past;
    } else {
      StepTraced(pub, w, file, row, past, actions[0]);
      assert (past + [actions[0]]) + actions[1..] == past + actions;
      RunTraced(pub, Step(pub, w, actions[0]), file, row, past + [actions[0]], actions[1..]);
    }
  }

  /**
    Over every run, the key that is in the file, and that processes come up with, was
    there from the start, or supplied to one of them, or made by one of them that found
    no file, no row, no import and no user.
  */
  lemma KeysHaveOrigins(pub: Private -> Public, file: File, row: Option<Public>, actions: seq<Action>, p: nat)
    ensures
      var w := Run(pub, World(file, row, map[]), actions);
      && (w.file.Holds? ==> HasOrigin(pub, file, row, actions, w.file.key))
      && (p in w.processes && w.processes[p].stage.Ready? ==> HasOrigin(pub, file, row, actions, w.processes[p].stage.key))
  {
    hide HasOrigin;
    var start := World(file, row, map[]);
    assert [] + actions == actions;
    assert Traced(pub, start, file, row, []) by {
      StartTraced(pub, file, row);
    }
    RunTraced(pub, start, file, row, [], actions);
    KeyAgreement(pub, file, row, actions, p, p);
  }

  lemma StartTraced(pub: Private -> Public, file: File, row: Option<Public>)
    ensures Traced(pub, World(file, row, map[]), file, row, [])
  {
  }

  /** A new space, with nothing there and nobody else starting, comes up with the key it makes. */
  lemma NewSpaceComesUp(pub: Private -> Public, s: Setup, p: nat, generated: Private)
    requires s.blob == NoImport && !s.ephemeral
    ensures
      var w := World(Missing, None, map[]);
      var w1 := Step(pub, Step(pub, Step(pub, w, Launch(p, s)), Load(p)), Choose(p, false, generated));
      Step(pub, Step(pub, w1, Link(p)), ReadBack(p)) == World(Holds(generated), None, map[p := Process(s, Ready(generated))])
  {
    var w := World(Missing, None, map[]);
    var w1 := Step(pub, Step(pub, w, Launch(p, s)), Load(p));
    assert w1 == World(Missing, None, map[p := Process(s, NoFile)]);
    var w2 := Step(pub, w1, Choose(p, false, generated));
    assert w2 == World(Missing, None, map[p := Process(s, Publishing(generated))]);
    var w3 := Step(pub, w2, Link(p));
    assert w3 == World(Holds(generated), None, map[p := Process(s, Written(generated))]);
    assert Step(pub, w3, ReadBack(p)).processes == map[p := Process(s, Ready(generated))];
  }

  /** Once a process has come up, a later one comes up, with that key, if and only if its import is none or agrees. */
  lemma RestartComesUpIffImportAgrees(pub: Private -> Public, file: File, row: Option<Public>, before: seq<Action>, p: nat, q: nat, s: Setup)
    ensures
      var w := Run(pub, World(file, row, map[]), before);
      p in w.processes && w.processes[p].stage.Ready? && q !in w.processes ==>
        var key := w.processes[p].stage.key;
        var w' := Step(pub, Step(pub, w, Launch(q, s)), Load(q));
        q in w'.processes && (w'.processes[q].stage == Ready(key) <==> s.blob == NoImport || (s.blob.Blob? && s.blob.pub == pub(key)))
  {
    assert Inv(pub, World(file, row, map[]));
    RunKeepsInv(pub, World(file, row, map[]), before);
  }
}
