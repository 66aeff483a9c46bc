/**
 Installing and upgrading the framework in a project: which files an install overwrites, over any sequence of
 installs and user edits. A content stands for its hash.
 */
module Install {
  import opened Wrappers

  type Path = string
  type Content = string

  datatype File = File(dest: Path, bytes: Content, owned: bool)

  datatype Release = Release(tag: string, files: seq<File>)

  /** The files of a project, the hashes recorded by the last install, and the version installed. */
  datatype Project = Project(disk: map<Path, Content>, recorded: map<Path, Content>, version: Option<string>)

  type Factory = map<Path, set<Content>>

  datatype Action = Write | KeepUserVersion

  function UpgradeAction(recorded: Option<Content>, onDisk: Option<Content>, released: Content, factory: bool): Action {
    match (recorded, onDisk)
    case (_, None) => Write
    case (rec, Some(d)) =>
      if rec == Some(d) then Write
      else if d == released then Write
      else if factory then Write
      else KeepUserVersion
  }

  function Get(m: map<Path, Content>, p: Path): Option<Content> {
    if p in m then Some(m[p]) else None
  }

  function Beside(dest: Path): Path {
    dest + ".new"
  }

  /** Nothing to do: that version is installed and the disk is what was recorded. */
  predicate Intact(p: Project, tag: string) {
    && p.version == Some(tag) && p.recorded != map[]
    && forall d :: d in p.recorded ==> Get(p.disk, d) == Some(p.recorded[d])
  }

  predicate NeedsProvenance(p: Project, files: seq<File>) {
    exists f :: f in files && f.dest in p.disk && Get(p.recorded, f.dest) != Some(p.disk[f.dest])
      && p.disk[f.dest] != f.bytes
  }

  /** What is asked of the releases: only if it is needed and this is an upgrade. */
  function Consulted(p: Project, files: seq<File>, online: Factory): Factory {
    if NeedsProvenance(p, files) && p.version.Some? then online else map[]
  }

  function ActionFor(p: Project, factory: Factory, f: File): Action {
    UpgradeAction(Get(p.recorded, f.dest), Get(p.disk, f.dest), f.bytes,
                  f.dest in p.disk && f.dest in factory && p.disk[f.dest] in factory[f.dest])
  }

  /** What the disk and the new record are after the first files, decided from the project as it was. */
  datatype Laid = Laid(disk: map<Path, Content>, hashes: map<Path, Content>)

  function LayFile(p: Project, factory: Factory, was: Laid, f: File): Laid {
    match ActionFor(p, factory, f)
    case Write =>
      Laid(if !f.owned && Get(p.disk, f.dest) == Some(f.bytes) then was.disk else was.disk[f.dest := f.bytes],
           was.hashes[f.dest := f.bytes])
    case KeepUserVersion =>
      Laid(was.disk[Beside(f.dest) := f.bytes],
           if f.dest in p.recorded then was.hashes[f.dest := p.recorded[f.dest]] else was.hashes)
  }

  function Lay(p: Project, factory: Factory, files: seq<File>): Laid {
    if files == [] then Laid(p.disk, map[])
    else LayFile(p, factory, Lay(p, factory, files[..|files| - 1]), files[|files| - 1])
  }

  /** Where a file is written, if it is: an up-to-date file that is not the framework's is left alone. */
  function Target(p: Project, factory: Factory, f: File): Option<Path> {
    match ActionFor(p, factory, f)
    case Write => if !f.owned && Get(p.disk, f.dest) == Some(f.bytes) then None else Some(f.dest)
    case KeepUserVersion => Some(Beside(f.dest))
  }

  /** A write that fails: a file by its place, then the version, then the record. It leaves what was there, or,
      once it has truncated that, something else. */
  datatype Failure = Failure(at: nat, torn: Option<Content>)

  predicate Stops(p: Project, factory: Factory, files: seq<File>, fails: Option<Failure>) {
    && fails.Some? && fails.value.at <= |files| + 1
    && (fails.value.at < |files| ==> Target(p, factory, files[fails.value.at]).Some?)
  }

  function Torn(disk: map<Path, Content>, path: Path, torn: Option<Content>): map<Path, Content> {
    if torn.Some? then disk[path := torn.value] else disk
  }

  /** What an install leaves that stops there. A torn version is another version; a torn record reads as none. */
  function Stopped(p: Project, factory: Factory, r: Release, x: Failure): Project
    requires Stops(p, factory, r.files, Some(x))
  {
    if x.at < |r.files| then
      p.(disk := Torn(Lay(p, factory, r.files[..x.at]).disk, Target(p, factory, r.files[x.at]).value, x.torn))
    else
      var disk := Lay(p, factory, r.files).disk;
      if x.at == |r.files| then p.(disk := disk, version := if x.torn.Some? then x.torn else p.version)
      else Project(disk, if x.torn.Some? then map[] else p.recorded, Some(r.tag))
  }

  /** An install, in which a write may fail. */
  function Installed(p: Project, r: Release, online: Factory, fails: Option<Failure>): Project {
    if Intact(p, r.tag) then p
    else
      var factory := Consulted(p, r.files, online);
      if Stops(p, factory, r.files, fails) then Stopped(p, factory, r, fails.value)
      else
        var laid := Lay(p, factory, r.files);
        Project(laid.disk, laid.hashes, Some(r.tag))
  }

  // ---------------------------------------------------------------------------------------------
  // What an install overwrites
  // ---------------------------------------------------------------------------------------------

  /** Some release published the content for that path. */
  predicate Published(releases: seq<Release>, p: Path, c: Content) {
    exists r, f :: r in releases && f in r.files && f.dest == p && f.bytes == c
  }

  predicate RecordedPublished(releases: seq<Release>, p: Project) {
    forall d :: d in p.recorded ==> Published(releases, d, p.recorded[d])
  }

  predicate FactoryPublished(releases: seq<Release>, factory: Factory) {
    forall d, c :: d in factory && c in factory[d] ==> Published(releases, d, c)
  }

  /** The path is where the release's version of a kept file is put. */
  predicate IsBeside(p: Project, factory: Factory, files: seq<File>, path: Path) {
    exists f :: f in files && ActionFor(p, factory, f).KeepUserVersion? && path == Beside(f.dest)
  }

  lemma WritesPublished(releases: seq<Release>, p: Project, factory: Factory, f: File)
    requires RecordedPublished(releases, p) && FactoryPublished(releases, factory)
    requires ActionFor(p, factory, f).Write? && f.dest in p.disk
    ensures Published(releases, f.dest, p.disk[f.dest]) || p.disk[f.dest] == f.bytes
  {
    hide Published;
  }

  /** The first files leave a content that no release published where it is, except beside a kept file. */
  lemma {:induction false} LayKeeps(releases: seq<Release>, p: Project, factory: Factory, files: seq<File>, path: Path)
    requires RecordedPublished(releases, p) && FactoryPublished(releases, factory)
    requires path in p.disk && !Published(releases, path, p.disk[path]) && !IsBeside(p, factory, files, path)
    ensures Get(Lay(p, factory, files).disk, path) == Some(p.disk[path])
  {
    hide Published, ActionFor;
    if files != [] {
      var fewer, f := files[..|files| - 1], files[|files| - 1];
      assert files == fewer + [f];
      LayKeeps(releases, p, factory, fewer, path);
      if f.dest == path && ActionFor(p, factory, f).Write? {
        WritesPublished(releases, p, factory, f);
      }
    }
  }

  lemma {:induction false} LayRecords(releases: seq<Release>, p: Project, factory: Factory, files: seq<File>,
                                      r: Release)
    requires RecordedPublished(releases, p) && r in releases && forall f :: f in files ==> f in r.files
    ensures forall d :: d in Lay(p, factory, files).hashes ==> Published(releases, d, Lay(p, factory, files).hashes[d])
  {
    hide ActionFor;
    if files != [] {
      var fewer, f := files[..|files| - 1], files[|files| - 1];
      assert files == fewer + [f] && f in files;
      LayRecords(releases, p, factory, fewer, r);
      assert Published(releases, f.dest, f.bytes);
    }
  }

  /** Nor is what no release published at the place of the write that fails. */
  lemma TornPublished(releases: seq<Release>, p: Project, factory: Factory, r: Release, f: File, path: Path)
    requires RecordedPublished(releases, p) && FactoryPublished(releases, factory) && r in releases && f in r.files
    requires path in p.disk && !Published(releases, path, p.disk[path]) && !IsBeside(p, factory, r.files, path)
    ensures Target(p, factory, f) != Some(path)
  {
    assert Published(releases, f.dest, f.bytes);
    if f.dest == path && ActionFor(p, factory, f).Write? {
      WritesPublished(releases, p, factory, f);
    }
  }

  /** One install, complete or interrupted, of any release, online or not: what it overwrites was published for
      that path, except what stands beside a file it keeps. */
  lemma OverwritesOnlyPublished(releases: seq<Release>, p: Project, r: Release, online: Factory, fails: Option<Failure>,
                                path: Path)
    requires RecordedPublished(releases, p) && FactoryPublished(releases, online) && r in releases
    requires path in p.disk && Get(Installed(p, r, online, fails).disk, path) != Some(p.disk[path])
    ensures Published(releases, path, p.disk[path]) || IsBeside(p, Consulted(p, r.files, online), r.files, path)
  {
    hide Published, ActionFor;
    var factory := Consulted(p, r.files, online);
    var stops := Stops(p, factory, r.files, fails) && fails.value.at < |r.files|;
    var done := if stops then r.files[..fails.value.at] else r.files;
    if !Published(releases, path, p.disk[path]) && !IsBeside(p, factory, r.files, path) {
      LayKeeps(releases, p, factory, done, path);
      if stops {
        TornPublished(releases, p, factory, r, r.files[fails.value.at], path);
      }
    }
  }

  lemma InstallRecords(releases: seq<Release>, p: Project, r: Release, online: Factory, fails: Option<Failure>)
    requires RecordedPublished(releases, p) && r in releases
    ensures RecordedPublished(releases, Installed(p, r, online, fails))
  {
    hide Published, Lay;
    LayRecords(releases, p, Consulted(p, r.files, online), r.files, r);
  }

  // ---------------------------------------------------------------------------------------------
  // Any sequence of installs and edits
  // ---------------------------------------------------------------------------------------------

  datatype Event =
    | Upgrade(release: Release, online: Factory, fails: Option<Failure>)
    | Edit(path: Path, content: Content)
    | Remove(path: Path)
    | ForgetRecord

  function After(p: Project, e: Event): Project {
    match e
    case Upgrade(r, online, fails) => Installed(p, r, online, fails)
    case Edit(path, c) => p.(disk := p.disk[path := c])
    case Remove(path) => p.(disk := p.disk - {path})
    case ForgetRecord => p.(recorded := map[])
  }

  function Life(start: Project, events: seq<Event>): Project {
    if events == [] then start else After(Life(start, events[..|events| - 1]), events[|events| - 1])
  }

  predicate Genuine(releases: seq<Release>, e: Event) {
    e.Upgrade? ==> e.release in releases && FactoryPublished(releases, e.online)
  }

  predicate AllGenuine(releases: seq<Release>, events: seq<Event>) {
    forall i :: 0 <= i < |events| ==> Genuine(releases, events[i])
  }

  /** Every hash ever recorded is a published one. */
  lemma {:induction false} RecordsStayPublished(releases: seq<Release>, start: Project, events: seq<Event>)
    requires RecordedPublished(releases, start) && AllGenuine(releases, events)
    ensures RecordedPublished(releases, Life(start, events))
  {
    hide Published, Installed;
    if events != [] {
      var p, e := Life(start, events[..|events| - 1]), events[|events| - 1];
      RecordsStayPublished(releases, start, events[..|events| - 1]);
      assert Genuine(releases, e);
      if e.Upgrade? {
        InstallRecords(releases, p, e.release, e.online, e.fails);
      }
    }
  }

  /** No release puts its own version of a file there. */
  predicate BesideNothing(releases: seq<Release>, path: Path) {
    forall r, f :: r in releases && f in r.files ==> Beside(f.dest) != path
  }

  /** A content of the user's own survives every sequence of installs, until the user changes it, at every path
      that is not the `.new` of a released file. */
  lemma {:induction false} UserWorkSurvives(releases: seq<Release>, start: Project, events: seq<Event>, path: Path,
                                            mine: Content)
    requires RecordedPublished(releases, start) && AllGenuine(releases, events)
    requires Get(start.disk, path) == Some(mine) && !Published(releases, path, mine) && BesideNothing(releases, path)
    requires forall i :: 0 <= i < |events| && (events[i].Edit? || events[i].Remove?) ==> events[i].path != path
    ensures Get(Life(start, events).disk, path) == Some(mine)
  {
    hide Published, Installed, ActionFor;
    if events != [] {
      var before, e := events[..|events| - 1], events[|events| - 1];
      var p := Life(start, before);
      UserWorkSurvives(releases, start, before, path, mine);
      RecordsStayPublished(releases, start, before);
      assert Genuine(releases, e);
      if e.Upgrade? && Get(After(p, e).disk, path) != Some(mine) {
        OverwritesOnlyPublished(releases, p, e.release, e.online, e.fails, path);
      }
    }
  }

  // ---------------------------------------------------------------------------------------------
  // Exactly when nothing of the user's is lost
  // ---------------------------------------------------------------------------------------------

  /** Each path is laid at most once, beside or in place. */
  predicate Distinct(files: seq<File>) {
    && (forall i, j :: 0 <= i < j < |files| ==> files[i].dest != files[j].dest)
    && (forall f, g :: f in files && g in files ==> Beside(f.dest) != g.dest)
  }

  /** What stands beside a file that will be kept is what will be put there, or was published. */
  predicate NothingBeside(releases: seq<Release>, p: Project, factory: Factory, files: seq<File>) {
    forall f :: f in files && ActionFor(p, factory, f).KeepUserVersion? && Beside(f.dest) in p.disk ==>
      p.disk[Beside(f.dest)] == f.bytes || Published(releases, Beside(f.dest), p.disk[Beside(f.dest)])
  }

  predicate Loses(releases: seq<Release>, p: Project, q: Project, path: Path) {
    path in p.disk && Get(q.disk, path) != Some(p.disk[path]) && !Published(releases, path, p.disk[path])
  }

  lemma BesideApart(a: Path, b: Path)
    requires a != b
    ensures Beside(a) != Beside(b)
  {
    assert Beside(a)[..|Beside(a)| - 4] == a && Beside(b)[..|Beside(b)| - 4] == b;
  }

  lemma LayFileElsewhere(p: Project, factory: Factory, was: Laid, f: File, path: Path)
    requires path != f.dest && path != Beside(f.dest)
    ensures Get(LayFile(p, factory, was, f).disk, path) == Get(was.disk, path)
  {
    hide ActionFor, Beside;
  }

  lemma DistinctFewer(files: seq<File>)
    requires Distinct(files) && files != []
    ensures Distinct(files[..|files| - 1])
    ensures forall f :: f in files ==>
      f == files[|files| - 1] || (f in files[..|files| - 1] && f.dest != files[|files| - 1].dest)
    ensures forall f :: f in files ==> Beside(f.dest) != files[|files| - 1].dest
  {
    hide Beside;
    assert files == files[..|files| - 1] + [files[|files| - 1]];
  }

  lemma {:induction false} LaidBeside(p: Project, factory: Factory, files: seq<File>, f: File)
    requires Distinct(files) && f in files && ActionFor(p, factory, f).KeepUserVersion?
    ensures Get(Lay(p, factory, files).disk, Beside(f.dest)) == Some(f.bytes)
  {
    hide ActionFor, Beside, Distinct;
    var fewer, last := files[..|files| - 1], files[|files| - 1];
    DistinctFewer(files);
    if last != f {
      LaidBeside(p, factory, fewer, f);
      BesideApart(last.dest, f.dest);
      LayFileElsewhere(p, factory, Lay(p, factory, fewer), last, Beside(f.dest));
    }
  }

  /** The file is missing, untouched since it was recorded, already that of the release, or known to come from
      some release. */
  predicate Replaceable(p: Project, factory: Factory, f: File) {
    f.dest !in p.disk
    || Get(p.recorded, f.dest) == Some(p.disk[f.dest])
    || p.disk[f.dest] == f.bytes
    || (f.dest in factory && p.disk[f.dest] in factory[f.dest])
  }

  /** What a complete install leaves of one file: the release's version, recorded; or the user's, with the
      release's beside it and the record as it was. */
  predicate LaidDown(p: Project, laid: Laid, f: File, replaced: bool) {
    if replaced then Get(laid.disk, f.dest) == Some(f.bytes) && Get(laid.hashes, f.dest) == Some(f.bytes)
    else
      && Get(laid.disk, f.dest) == Get(p.disk, f.dest) && Get(laid.disk, Beside(f.dest)) == Some(f.bytes)
      && Get(laid.hashes, f.dest) == Get(p.recorded, f.dest)
  }

  lemma {:induction false} NotYetLaid(p: Project, factory: Factory, files: seq<File>, path: Path)
    requires forall f :: f in files ==> f.dest != path && Beside(f.dest) != path
    ensures Get(Lay(p, factory, files).disk, path) == Get(p.disk, path)
    ensures path !in Lay(p, factory, files).hashes
  {
    hide ActionFor, Beside;
    if files != [] {
      assert files[|files| - 1] in files;
      NotYetLaid(p, factory, files[..|files| - 1], path);
    }
  }

  lemma LaidLater(p: Project, factory: Factory, was: Laid, f: File, last: File, replaced: bool)
    requires f.dest != last.dest && Beside(f.dest) != last.dest && Beside(last.dest) != f.dest
    requires LaidDown(p, was, f, replaced)
    ensures LaidDown(p, LayFile(p, factory, was, last), f, replaced)
  {
    hide ActionFor, Beside;
    BesideApart(f.dest, last.dest);
  }

  /** Every file of the release is replaced exactly when it is missing, untouched or of some release, and is
      kept otherwise. */
  lemma {:induction false} ReplacesOrKeeps(p: Project, factory: Factory, files: seq<File>, f: File)
    requires Distinct(files) && f in files
    ensures LaidDown(p, Lay(p, factory, files), f, Replaceable(p, factory, f))
  {
    hide Beside, Distinct, LaidDown;
    var fewer, last := files[..|files| - 1], files[|files| - 1];
    DistinctFewer(files);
    LastApart(files);
    if last != f {
      ReplacesOrKeeps(p, factory, fewer, f);
      LaidLater(p, factory, Lay(p, factory, fewer), f, last, Replaceable(p, factory, f));
    } else {
      NotYetLaid(p, factory, fewer, f.dest);
      LaidNow(p, factory, Lay(p, factory, fewer), f);
    }
  }

  lemma LaidNow(p: Project, factory: Factory, was: Laid, f: File)
    requires Get(was.disk, f.dest) == Get(p.disk, f.dest) && f.dest !in was.hashes
    ensures LaidDown(p, LayFile(p, factory, was, f), f, Replaceable(p, factory, f))
  {
    hide Beside;
    BesideIsLonger(f.dest);
  }

  lemma BesideIsLonger(path: Path)
    ensures Beside(path) != path
  {
    assert |Beside(path)| == |path| + 4;
  }

  lemma LastApart(files: seq<File>)
    requires Distinct(files) && files != []
    ensures var last := files[|files| - 1];
      forall f :: f in files[..|files| - 1] ==>
        f.dest != last.dest && Beside(f.dest) != last.dest && Beside(last.dest) != f.dest
  {
    hide Beside;
    assert files[|files| - 1] in files;
    assert forall f :: f in files[..|files| - 1] ==> f in files;
  }

  /** A complete install that keeps nothing leaves nothing to do: installing the same release again changes
      nothing. */
  lemma InstallTwice(p: Project, r: Release, online: Factory, again: Factory)
    requires r.files != [] && Distinct(r.files)
    requires forall f :: f in r.files ==> Replaceable(p, Consulted(p, r.files, online), f)
    ensures var q := Installed(p, r, online, None); Installed(q, r, again, None) == q
  {
    hide Lay, Consulted, Replaceable, Distinct;
    var factory, q := Consulted(p, r.files, online), Installed(p, r, online, None);
    if !Intact(p, r.tag) {
      forall f | f in r.files ensures LaidDown(p, Lay(p, factory, r.files), f, true) {
        ReplacesOrKeeps(p, factory, r.files, f);
      }
      RecordedAreLaid(p, factory, r.files);
      assert r.files[0] in r.files;
      assert r.files[0].dest in q.recorded;
    }
  }

  lemma {:induction false} RecordedAreLaid(p: Project, factory: Factory, files: seq<File>)
    ensures forall d :: d in Lay(p, factory, files).hashes ==> exists f :: f in files && f.dest == d
  {
    hide ActionFor, Beside;
    if files != [] {
      var fewer := files[..|files| - 1];
      RecordedAreLaid(p, factory, fewer);
      assert files == fewer + [files[|files| - 1]];
    }
  }

  // ---------------------------------------------------------------------------------------------
  // When there is nothing to do, and when the releases are asked
  // ---------------------------------------------------------------------------------------------

  /** With that version installed and every recorded file on disk as recorded, nothing is done, whatever the release
      holds. */
  lemma AsRecordedIsLeft(p: Project, r: Release, online: Factory, fails: Option<Failure>)
    requires p.version == Some(r.tag) && |p.recorded| > 0
    requires forall d :: d in p.recorded ==> d in p.disk && p.disk[d] == p.recorded[d]
    ensures Installed(p, r, online, fails) == p
  {
  }

  /** In all other cases (another version, no record, or a recorded file `d` that is missing or is not as recorded) a
      complete install goes over every file: it is replaced and recorded, or kept with the release's beside it. */
  lemma ElseEveryFileIsLaid(p: Project, r: Release, online: Factory, d: Path, f: File)
    requires Distinct(r.files) && f in r.files
    requires p.version != Some(r.tag) || |p.recorded| == 0
      || (d in p.recorded && (d !in p.disk || p.disk[d] != p.recorded[d]))
    ensures var q := Installed(p, r, online, None);
      && q.version == Some(r.tag)
      && LaidDown(p, Laid(q.disk, q.recorded), f, Replaceable(p, Consulted(p, r.files, online), f))
  {
    hide Lay, Consulted, Distinct, Beside, LaidDown;
    ReplacesOrKeeps(p, Consulted(p, r.files, online), r.files, f);
    assert d in p.recorded && Get(p.disk, d) == Some(p.recorded[d]) ==> d in p.disk && p.disk[d] == p.recorded[d];
  }

  /** A recorded file of the release that is missing is there again after an install, of the installed version too. */
  lemma MissingIsRestored(p: Project, r: Release, online: Factory, f: File)
    requires Distinct(r.files) && f in r.files && f.dest in p.recorded && f.dest !in p.disk
    ensures var q := Installed(p, r, online, None);
      f.dest in q.disk && q.disk[f.dest] == f.bytes && f.dest in q.recorded && q.recorded[f.dest] == f.bytes
  {
    hide Installed, Consulted, Distinct, Beside;
    ElseEveryFileIsLaid(p, r, online, f.dest, f);
  }

  /** After a complete install no recorded file is missing. */
  lemma NoneIsMissing(p: Project, r: Release, online: Factory, d: Path)
    requires Distinct(r.files) && d in Installed(p, r, online, None).recorded
    ensures d in Installed(p, r, online, None).disk
  {
    hide Lay, Consulted, Distinct, Beside, UpgradeAction;
    if !Intact(p, r.tag) {
      var factory := Consulted(p, r.files, online);
      RecordedAreLaid(p, factory, r.files);
      var f :| f in r.files && f.dest == d;
      ReplacesOrKeeps(p, factory, r.files, f);
    }
  }

  /** Where there was no version, or every file on disk is as recorded or as released, it makes no difference what
      the releases would say. */
  lemma OfflineIsEnough(p: Project, r: Release, one: Factory, two: Factory, fails: Option<Failure>)
    requires p.version.None? || forall f :: f in r.files && f.dest in p.disk ==>
      p.disk[f.dest] == f.bytes || (f.dest in p.recorded && p.recorded[f.dest] == p.disk[f.dest])
    ensures Installed(p, r, one, fails) == Installed(p, r, two, fails)
  {
    hide Stops, Stopped, Lay;
  }

  /** In an upgrade a file that some release published is replaced, recorded or not. */
  lemma PublishedIsReplaced(p: Project, r: Release, online: Factory, f: File)
    requires Distinct(r.files) && f in r.files && p.version.Some? && p.version != Some(r.tag)
    requires f.dest in p.disk && f.dest in online && p.disk[f.dest] in online[f.dest]
    ensures var q := Installed(p, r, online, None); f.dest in q.disk && q.disk[f.dest] == f.bytes
  {
    hide Installed, Distinct, Beside;
    ElseEveryFileIsLaid(p, r, online, f.dest, f);
  }

  // ---------------------------------------------------------------------------------------------
  // An install that failed, run again
  // ---------------------------------------------------------------------------------------------

  /** What the first files put on the disk. */
  function Patch(p: Project, factory: Factory, files: seq<File>): map<Path, Content> {
    if files == [] then map[]
    else
      var f := files[|files| - 1];
      Patch(p, factory, files[..|files| - 1])
        [(if ActionFor(p, factory, f).Write? then f.dest else Beside(f.dest)) := f.bytes]
  }

  lemma {:induction false} LayIsPatch(p: Project, factory: Factory, files: seq<File>)
    requires Distinct(files)
    ensures Lay(p, factory, files).disk == p.disk + Patch(p, factory, files)
  {
    hide Beside, Distinct, ActionFor, LayFile;
    if files != [] {
      var fewer, last := files[..|files| - 1], files[|files| - 1];
      DistinctFewer(files);
      LastApart(files);
      LayIsPatch(p, factory, fewer);
      NotYetLaid(p, factory, fewer, last.dest);
      LayFilePatches(p, factory, Lay(p, factory, fewer), last);
      var path := if ActionFor(p, factory, last).Write? then last.dest else Beside(last.dest);
      OneMore(p.disk, Patch(p, factory, fewer), path, last.bytes);
      assert Patch(p, factory, files) == Patch(p, factory, fewer)[path := last.bytes];
    }
  }

  lemma OneMore(disk: map<Path, Content>, patch: map<Path, Content>, path: Path, c: Content)
    ensures (disk + patch)[path := c] == disk + patch[path := c]
  {
  }

  lemma LayFilePatches(p: Project, factory: Factory, was: Laid, f: File)
    requires Get(was.disk, f.dest) == Get(p.disk, f.dest)
    ensures LayFile(p, factory, was, f).disk
      == was.disk[(if ActionFor(p, factory, f).Write? then f.dest else Beside(f.dest)) := f.bytes]
  {
    hide ActionFor, Beside;
  }

  lemma {:induction false} PatchGrows(p: Project, factory: Factory, files: seq<File>, n: nat)
    requires n <= |files|
    ensures Patch(p, factory, files[..n]).Keys <= Patch(p, factory, files).Keys
  {
    hide ActionFor, Beside;
    if n < |files| {
      assert files[..|files| - 1][..n] == files[..n];
      PatchGrows(p, factory, files[..|files| - 1], n);
    } else {
      assert files[..n] == files;
    }
  }

  /** Where the same is decided for every file, the same is put on the disk; and the same is recorded, if the
      files kept had the same records. */
  lemma {:induction false} SameActionsSameLay(p: Project, f1: Factory, q: Project, f2: Factory, files: seq<File>)
    requires forall f :: f in files ==> ActionFor(p, f1, f) == ActionFor(q, f2, f)
    ensures Patch(p, f1, files) == Patch(q, f2, files)
    ensures SameRecords(p, f1, q, files) ==> Lay(p, f1, files).hashes == Lay(q, f2, files).hashes
  {
    hide ActionFor, Beside;
    if files != [] {
      assert files[|files| - 1] in files;
      SameActionsSameLay(p, f1, q, f2, files[..|files| - 1]);
    }
  }

  predicate SameRecords(p: Project, factory: Factory, q: Project, files: seq<File>) {
    forall f :: f in files && ActionFor(p, factory, f).KeepUserVersion? ==>
      Get(p.recorded, f.dest) == Get(q.recorded, f.dest)
  }

  /** A file already laid down is decided as before: what was replaced is now the release's, what was kept is as
      it was; and so is a file not yet laid. */
  lemma {:induction false} DecidedAgain(p: Project, factory: Factory, files: seq<File>, n: nat, f: File)
    requires Distinct(files) && n <= |files| && f in files
    ensures var disk := Lay(p, factory, files[..n]).disk;
      Get(disk, f.dest) == Get(p.disk, f.dest)
        || (ActionFor(p, factory, f).Write? && Get(disk, f.dest) == Some(f.bytes))
  {
    hide Beside, Distinct, ActionFor;
    if n < |files| {
      var fewer, last := files[..|files| - 1], files[|files| - 1];
      DistinctFewer(files);
      LastApart(files);
      assert fewer[..n] == files[..n];
      if f != last {
        DecidedAgain(p, factory, fewer, n, f);
      } else {
        assert forall g :: g in files[..n] ==> g in fewer;
        NotYetLaid(p, factory, files[..n], f.dest);
      }
    } else {
      assert files[..n] == files;
      ReplacesOrKeeps(p, factory, files, f);
      KeptOrReplaced(p, factory, Lay(p, factory, files), f);
    }
  }

  lemma KeptOrReplaced(p: Project, factory: Factory, laid: Laid, f: File)
    requires LaidDown(p, laid, f, Replaceable(p, factory, f))
    ensures Get(laid.disk, f.dest) == Get(p.disk, f.dest)
      || (ActionFor(p, factory, f).Write? && Get(laid.disk, f.dest) == Some(f.bytes))
  {
    hide Beside;
  }

  /** What is left where the write failed is the release's, what was recorded, or what some release published; and
      if the record was lost, none of the files kept was in it. */
  predicate Mends(p: Project, r: Release, online: Factory, x: Failure) {
    var factory := Consulted(p, r.files, online);
    Stops(p, factory, r.files, Some(x)) ==>
      var q := Stopped(p, factory, r, x);
      && (x.at < |r.files| && x.torn.Some? && ActionFor(p, factory, r.files[x.at]).Write? ==>
            Replaceable(q, Consulted(q, r.files, online), r.files[x.at]))
      && (x.at == |r.files| + 1 && x.torn.Some? ==>
            forall f :: f in r.files && ActionFor(p, factory, f).KeepUserVersion? ==> f.dest !in p.recorded)
  }

  /** The files but one are decided as they were the first time. */
  lemma OthersDecidedAgain(p: Project, r: Release, online: Factory, x: Failure, f: File)
    requires var factory := Consulted(p, r.files, online);
      Distinct(r.files) && Stops(p, factory, r.files, Some(x)) && f in r.files
    requires var q := Stopped(p, Consulted(p, r.files, online), r, x); p.version.Some? <==> q.version.Some?
    requires var factory := Consulted(p, r.files, online);
      x.at < |r.files| && f == r.files[x.at] && x.torn.Some? ==> ActionFor(p, factory, f).KeepUserVersion?
    ensures var q := Stopped(p, Consulted(p, r.files, online), r, x);
      ActionFor(p, Consulted(p, r.files, online), f) == ActionFor(q, Consulted(q, r.files, online), f)
  {
    hide Lay, NeedsProvenance, ActionFor, Distinct;
    var factory := Consulted(p, r.files, online);
    var q, n := Stopped(p, factory, r, x), if x.at < |r.files| then x.at else |r.files|;
    assert r.files[..|r.files|] == r.files;
    DecidedAgain(p, factory, r.files, n, f);
    if x.at < |r.files| && x.torn.Some? {
      TargetElsewhere(p, factory, r.files, x.at, f);
    }
    var disk := Lay(p, factory, r.files[..n]).disk;
    assert Get(q.disk, f.dest) == Get(disk, f.dest);
    if x.at <= |r.files| && Get(q.disk, f.dest) == Get(p.disk, f.dest) {
      SameFactory(p, q, r.files, online, f);
    } else if x.at <= |r.files| {
      WrittenAgain(q, Consulted(q, r.files, online), f);
    } else {
      ReplacesOrKeeps(p, factory, r.files, f);
      RecordLost(p, q, Lay(p, factory, r.files), r.files, online, f);
    }
  }

  /** The write that fails has another target than the other files, and than its own file if that is kept. */
  lemma TargetElsewhere(p: Project, factory: Factory, files: seq<File>, at: nat, f: File)
    requires Distinct(files) && at < |files| && f in files
    requires f == files[at] ==> ActionFor(p, factory, f).KeepUserVersion?
    ensures Target(p, factory, files[at]) != Some(f.dest)
  {
    hide ActionFor, Beside;
    BesideIsLonger(f.dest);
  }

  /** A file of the user's project that is as released is not written at all: it outlives any install of that
      release, and any write that fails. */
  lemma CurrentSurvives(p: Project, r: Release, online: Factory, fails: Option<Failure>, f: File)
    requires Distinct(r.files) && f in r.files && !f.owned && f.dest in p.disk && p.disk[f.dest] == f.bytes
    ensures var q := Installed(p, r, online, fails); f.dest in q.disk && q.disk[f.dest] == f.bytes
  {
    hide Consulted, Distinct, Beside, Lay;
    var factory := Consulted(p, r.files, online);
    DecidedAgain(p, factory, r.files, |r.files|, f);
    assert r.files[..|r.files|] == r.files;
    if Stops(p, factory, r.files, fails) && fails.value.at < |r.files| {
      DecidedAgain(p, factory, r.files, fails.value.at, f);
      TargetElsewhere(p, factory, r.files, fails.value.at, f);
    }
  }

  lemma WrittenAgain(q: Project, factory: Factory, f: File)
    requires Get(q.disk, f.dest) == Some(f.bytes)
    ensures ActionFor(q, factory, f).Write?
  {
  }

  /** Without the record, what was replaced is the release's and what was kept is the user's still. */
  lemma RecordLost(p: Project, q: Project, laid: Laid, files: seq<File>, online: Factory, f: File)
    requires f in files && (p.version.Some? <==> q.version.Some?)
    requires Get(q.recorded, f.dest).None? || q.recorded == p.recorded
    requires q.disk == laid.disk && LaidDown(p, laid, f, Replaceable(p, Consulted(p, files, online), f))
    ensures ActionFor(p, Consulted(p, files, online), f) == ActionFor(q, Consulted(q, files, online), f)
  {
    hide Beside;
  }

  lemma {:induction false} PatchHas(p: Project, factory: Factory, files: seq<File>, i: nat)
    requires i < |files|
    ensures (if ActionFor(p, factory, files[i]).Write? then files[i].dest else Beside(files[i].dest))
      in Patch(p, factory, files)
  {
    hide ActionFor, Beside;
    if i < |files| - 1 {
      PatchHas(p, factory, files[..|files| - 1], i);
    }
  }

  /** Where all is decided again as the first time, the disk is the same in the end, torn file and all. */
  lemma SameDiskInTheEnd(p: Project, r: Release, online: Factory, x: Failure)
    requires Distinct(r.files) && Stops(p, Consulted(p, r.files, online), r.files, Some(x))
    requires var factory, q := Consulted(p, r.files, online), Stopped(p, Consulted(p, r.files, online), r, x);
      forall f :: f in r.files ==> ActionFor(p, factory, f) == ActionFor(q, Consulted(q, r.files, online), f)
    ensures var factory, q := Consulted(p, r.files, online), Stopped(p, Consulted(p, r.files, online), r, x);
      && Lay(q, Consulted(q, r.files, online), r.files).disk == Lay(p, factory, r.files).disk
      && (SameRecords(p, factory, q, r.files) ==>
            Lay(q, Consulted(q, r.files, online), r.files).hashes == Lay(p, factory, r.files).hashes)
  {
    hide Lay, Patch, Consulted, ActionFor, Distinct, Beside, SameRecords;
    var f1 := Consulted(p, r.files, online);
    var q, n := Stopped(p, f1, r, x), if x.at < |r.files| then x.at else |r.files|;
    var f2 := Consulted(q, r.files, online);
    assert r.files[..|r.files|] == r.files;
    SameActionsSameLay(p, f1, q, f2, r.files);
    DistinctPrefix(r.files, n);
    LayIsPatch(p, f1, r.files[..n]);
    LayIsPatch(p, f1, r.files);
    LayIsPatch(q, f2, r.files);
    PatchGrows(p, f1, r.files, n);
    var early, all := Patch(p, f1, r.files[..n]), Patch(p, f1, r.files);
    if x.at < |r.files| {
      PatchHas(p, f1, r.files, x.at);
      PatchedOver(p.disk, early, all, Target(p, f1, r.files[x.at]).value, x.torn);
    } else {
      PatchedOver(p.disk, early, all, "", None);
    }
  }

  /** What was put on the disk, torn or not, goes under what is put there again. */
  lemma PatchedOver(disk: map<Path, Content>, early: map<Path, Content>, all: map<Path, Content>, path: Path,
                    torn: Option<Content>)
    requires early.Keys <= all.Keys && (torn.Some? ==> path in all)
    ensures Torn(disk + early, path, torn) + all == disk + all
  {
    forall k | k in (Torn(disk + early, path, torn) + all).Keys ensures k in (disk + all).Keys {
      assert k in early ==> k in all;
    }
  }

  /** A file torn in its place is replaced again if what was left can be told from the user's work; else it is kept
      as the user's, and the release's put beside it. */
  lemma TornFile(p: Project, r: Release, online: Factory, x: Failure)
    requires var factory := Consulted(p, r.files, online);
      && Distinct(r.files) && Stops(p, factory, r.files, Some(x)) && !Intact(p, r.tag)
      && x.at < |r.files| && x.torn.Some? && ActionFor(p, factory, r.files[x.at]).Write?
    requires !Intact(Stopped(p, Consulted(p, r.files, online), r, x), r.tag)
    ensures Installed(Installed(p, r, online, Some(x)), r, online, None) == Installed(p, r, online, None)
      <==> Mends(p, r, online, x)
  {
    hide Lay, Intact, Consulted, Distinct, Beside, UpgradeAction;
    var factory, q, f := Consulted(p, r.files, online), Stopped(p, Consulted(p, r.files, online), r, x), r.files[x.at];
    var again := Consulted(q, r.files, online);
    ReplacesOrKeeps(p, factory, r.files, f);
    ReplacesOrKeeps(q, again, r.files, f);
    DecidedByReplaceable(p, factory, f);
    DecidedByReplaceable(q, again, f);
    if Replaceable(q, again, f) {
      forall g | g in r.files ensures ActionFor(p, factory, g) == ActionFor(q, again, g) {
        if g != f {
          OthersDecidedAgain(p, r, online, x, g);
        }
      }
      SameDiskInTheEnd(p, r, online, x);
    }
  }

  lemma DecidedByReplaceable(p: Project, factory: Factory, f: File)
    ensures ActionFor(p, factory, f).Write? <==> Replaceable(p, factory, f)
  {
  }

  /** With the record torn, a kept file that was recorded is no longer. */
  lemma TornRecord(p: Project, r: Release, online: Factory, x: Failure)
    requires var factory := Consulted(p, r.files, online);
      && Distinct(r.files) && Stops(p, factory, r.files, Some(x)) && !Intact(p, r.tag)
      && x.at == |r.files| + 1 && x.torn.Some?
    requires var factory, q := Consulted(p, r.files, online), Stopped(p, Consulted(p, r.files, online), r, x);
      && (forall f :: f in r.files ==> ActionFor(p, factory, f) == ActionFor(q, Consulted(q, r.files, online), f))
      && Lay(q, Consulted(q, r.files, online), r.files).disk == Lay(p, factory, r.files).disk
      && (SameRecords(p, factory, q, r.files) ==>
            Lay(q, Consulted(q, r.files, online), r.files).hashes == Lay(p, factory, r.files).hashes)
    ensures Installed(Installed(p, r, online, Some(x)), r, online, None) == Installed(p, r, online, None)
      <==> Mends(p, r, online, x)
  {
    hide Lay, Consulted, Distinct, Beside, UpgradeAction, ActionFor, Replaceable;
    var factory, q := Consulted(p, r.files, online), Stopped(p, Consulted(p, r.files, online), r, x);
    var again := Consulted(q, r.files, online);
    forall f | f in r.files && ActionFor(p, factory, f).KeepUserVersion?
      ensures Get(Lay(p, factory, r.files).hashes, f.dest) == Get(p.recorded, f.dest)
      ensures Get(Lay(q, again, r.files).hashes, f.dest) == Get(q.recorded, f.dest)
    {
      DecidedByReplaceable(p, factory, f);
      DecidedByReplaceable(q, again, f);
      ReplacesOrKeeps(p, factory, r.files, f);
      ReplacesOrKeeps(q, again, r.files, f);
    }
  }

  /** An install of a release that names each path once, in which a write failed and that is run again, ends as it
      would have ended had none failed, exactly when what the write left can be mended. */
  lemma FinishedIff(p: Project, r: Release, online: Factory, x: Failure)
    requires Distinct(r.files) && !Intact(p, r.tag) && Stops(p, Consulted(p, r.files, online), r.files, Some(x))
    requires var q := Installed(p, r, online, Some(x)); !Intact(q, r.tag) && (p.version.Some? <==> q.version.Some?)
    ensures Installed(Installed(p, r, online, Some(x)), r, online, None) == Installed(p, r, online, None)
      <==> Mends(p, r, online, x)
  {
    hide Lay, Patch, Intact, Consulted, ActionFor, Distinct, Target, Replaceable;
    var factory := Consulted(p, r.files, online);
    if x.at < |r.files| && x.torn.Some? && ActionFor(p, factory, r.files[x.at]).Write? {
      TornFile(p, r, online, x);
    } else {
      forall f | f in r.files
        ensures var q := Stopped(p, factory, r, x);
          ActionFor(p, factory, f) == ActionFor(q, Consulted(q, r.files, online), f)
      {
        OthersDecidedAgain(p, r, online, x, f);
      }
      SameDiskInTheEnd(p, r, online, x);
      if x.at == |r.files| + 1 && x.torn.Some? {
        TornRecord(p, r, online, x);
      }
    }
  }

  /** A disk that filled up while `app.syn` was being replaced left two letters of it: run again, the install keeps
      them as the user's. */
  lemma TornFileIsKept()
    ensures var f := File("app.syn", "new", true);
      var r, p := Release("v2", [f]), Project(map["app.syn" := "old"], map["app.syn" := "old"], Some("v1"));
      var again := Installed(Installed(p, r, map[], Some(Failure(0, Some("ne")))), r, map[], None);
      && Get(again.disk, "app.syn") == Some("ne") && Get(again.disk, "app.syn.new") == Some("new")
      && Get(Installed(p, r, map[], None).disk, "app.syn") == Some("new")
  {
    var f := File("app.syn", "new", true);
    var r, p := Release("v2", [f]), Project(map["app.syn" := "old"], map["app.syn" := "old"], Some("v1"));
    var q := p.(disk := map["app.syn" := "ne"]);
    assert [f][..0] == [] && Lay(p, map[], []).disk == p.disk;
    assert "old"[0] == 'o' && "new"[0] == 'n' && |"ne"| == 2 && |"new"| == 3 && "v1"[1] != "v2"[1];
    assert p.disk["app.syn" := "ne"] == q.disk;
    assert Installed(p, r, map[], Some(Failure(0, Some("ne")))) == q;
    assert Lay(p, map[], [f]) == LayFile(p, map[], Lay(p, map[], []), f);
    assert Lay(q, map[], [f]) == LayFile(q, map[], Lay(q, map[], []), f);
    assert Beside("app.syn") == "app.syn.new" && |Beside("app.syn")| != |"app.syn"|;
  }

  lemma DistinctPrefix(files: seq<File>, n: nat)
    requires Distinct(files) && n <= |files|
    ensures Distinct(files[..n])
  {
    hide Beside;
  }

  /** Where the releases' answer matters for a file that is as it was, they are asked both times. */
  lemma SameFactory(p: Project, q: Project, files: seq<File>, online: Factory, f: File)
    requires f in files && q.recorded == p.recorded && (p.version.Some? <==> q.version.Some?)
    requires Get(q.disk, f.dest) == Get(p.disk, f.dest)
    ensures ActionFor(p, Consulted(p, files, online), f) == ActionFor(q, Consulted(q, files, online), f)
  {
  }

  /** A complete install of a release that names each path once loses nothing that no release published exactly
      when nothing of the user's stands beside the files it is going to keep. */
  lemma LosesNothingIff(releases: seq<Release>, p: Project, r: Release, online: Factory)
    requires RecordedPublished(releases, p) && FactoryPublished(releases, online) && r in releases && Distinct(r.files)
    requires !Intact(p, r.tag)
    ensures (forall path :: !Loses(releases, p, Installed(p, r, online, None), path))
      <==> NothingBeside(releases, p, Consulted(p, r.files, online), r.files)
  {
    hide Published, ActionFor, Lay, Intact, Consulted, Distinct;
    var factory, q := Consulted(p, r.files, online), Installed(p, r, online, None);
    forall f | f in r.files && ActionFor(p, factory, f).KeepUserVersion?
      ensures Get(q.disk, Beside(f.dest)) == Some(f.bytes)
    {
      LaidBeside(p, factory, r.files, f);
    }
    if NothingBeside(releases, p, factory, r.files) {
      forall path | path in p.disk && Get(q.disk, path) != Some(p.disk[path])
        ensures Published(releases, path, p.disk[path])
      {
        OverwritesOnlyPublished(releases, p, r, online, None, path);
      }
    } else {
      var f :| f in r.files && ActionFor(p, factory, f).KeepUserVersion? && Beside(f.dest) in p.disk
        && p.disk[Beside(f.dest)] != f.bytes && !Published(releases, Beside(f.dest), p.disk[Beside(f.dest)]);
      assert Loses(releases, p, q, Beside(f.dest));
    }
  }

  /** The user edited `app.syn` and keeps notes in `app.syn.new`; the upgrade keeps the first and overwrites the
      second. */
  lemma NotesBesideAreLost()
    ensures var r := Release("v2", [File("app.syn", "new", false)]);
      var p := Project(map["app.syn" := "mine", "app.syn.new" := "notes"], map["app.syn" := "old"], Some("v1"));
      Get(Installed(p, r, map[], None).disk, "app.syn") == Some("mine")
      && Get(Installed(p, r, map[], None).disk, "app.syn.new") == Some("new")
  {
    var f := File("app.syn", "new", false);
    var p := Project(map["app.syn" := "mine", "app.syn.new" := "notes"], map["app.syn" := "old"], Some("v1"));
    assert [f][..0] == [];
    assert "mine"[0] == 'm' && "old"[0] == 'o' && "new"[0] == 'n';
    assert Lay(p, map[], [f]) == LayFile(p, map[], Lay(p, map[], []), f);
    assert |Beside("app.syn")| != |"app.syn"|;
    assert Beside("app.syn") == "app.syn.new";
  }

  // ---------------------------------------------------------------------------------------------
  // The installer
  // ---------------------------------------------------------------------------------------------

  class Installer {
    var disk: map<Path, Content>
    var recorded: map<Path, Content>
    var version: Option<string>

    function View(): Project
      reads this
    {
      Project(disk, recorded, version)
    }

    /** `install`, when the release `r` was fetched whole. */
    method Install(r: Release, online: Factory, fails: Option<Failure>) returns (ok: bool)
      modifies this
      ensures View() == Installed(old(View()), r, online, fails)
      ensures ok <==>
        Intact(old(View()), r.tag) || !Stops(old(View()), Consulted(old(View()), r.files, online), r.files, fails)
    {
      hide NeedsProvenance, UpgradeAction;
      var before := View();
      if Intact(before, r.tag) {
        return true;
      }
      var factory := Consulted(before, r.files, online);
      var newHashes: map<Path, Content> := map[];
      for i := 0 to |r.files|
        invariant Laid(disk, newHashes) == Lay(before, factory, r.files[..i])
        invariant recorded == before.recorded && version == before.version
        invariant Stops(before, factory, r.files, fails) ==> i <= fails.value.at
      {
        var f := r.files[i];
        assert r.files[..i + 1][..i] == r.files[..i];
        var onDisk := Get(before.disk, f.dest);
        var action := ActionFor(before, factory, f);
        if action.Write? {
          newHashes := newHashes[f.dest := f.bytes];
        } else if f.dest in before.recorded {
          newHashes := newHashes[f.dest := before.recorded[f.dest]];
        }
        var target := Target(before, factory, f);
        if fails.Some? && fails.value.at == i && target.Some? {
          disk := Torn(disk, target.value, fails.value.torn);
          return false;
        }
        if !f.owned {
          if action.Write? && onDisk.None? {
            disk := disk[f.dest := f.bytes];
          } else if action.Write? && onDisk == Some(f.bytes) {
          } else if action.Write? {
            disk := disk[f.dest := f.bytes];
          } else {
            disk := disk[Beside(f.dest) := f.bytes];
          }
          continue;
        }
        if action.Write? {
          disk := disk[f.dest := f.bytes];
        } else {
          disk := disk[Beside(f.dest) := f.bytes];
        }
      }
      assert r.files[..|r.files|] == r.files;
      if fails.Some? && fails.value.at == |r.files| {
        version := if fails.value.torn.Some? then fails.value.torn else version;
        return false;
      }
      version := Some(r.tag);
      if fails.Some? && fails.value.at == |r.files| + 1 {
        recorded := if fails.value.torn.Some? then map[] else recorded;
        return false;
      }
      recorded := newHashes;
      ok := true;
    }
  }
}
