/** Safe extraction of a deploy archive (scripts/deploy/bundle_utils.py): names are
    checked first, contents are streamed under two byte caps, and a failure that the
    except clauses catch undoes what was written. The file system is a tree of paths;
    there are no links in it. */
module Bundle {
  import opened Wrappers

  newtype byte = x: int | 0 <= x < 256
  type Bytes = seq<byte>

  /** An absolute path as its components; [] is the root. */
  type Path = seq<string>

  // ---------------------------------------------------------------------
  // Archives
  // ---------------------------------------------------------------------

  datatype Kind = File | Directory | Symlink | Hardlink | Device | Fifo | Other

  /** An exception raised by the libraries: a TarError or OSError, which extract_safe catches,
      or any other, such as the EOFError of a truncated gzip stream or a ValueError. */
  datatype Raise = Caught | Escaping

  /** One answer of source.read: some bytes (none at the end of the file), or an exception. */
  datatype Read = Chunk(bytes: Bytes) | Raised(how: Raise)

  /** size is what the header declares; source is None when extractfile gives nothing.
      When the answers are used up, the file is at its end. */
  datatype Member = Member(name: string, kind: Kind, size: nat, source: Option<seq<Read>>)

  /** The members, or the exception raised on opening the archive or reading its headers. */
  datatype Archive = Members(members: seq<Member>) | Unreadable(how: Raise)

  /** The reasons of a BundleError. */
  datatype Error =
    | BadCaps
    | EmptyName | AbsolutePath | Backslash | Traversal
    | SpecialMember | LinkMember | UnsupportedType
    | MemberCap | TotalCap | NoContent
    | ExtractionFailed

  /** The exceptions that leave extract_safe as they are. */
  datatype Cause = DestinationUnusable | NulInName | ReadRaised | ArchiveRaised

  datatype Outcome = Fine | Failed(error: Error) | Escaped(cause: Cause)

  /** What an exception raised inside the try statement becomes. */
  function Ended(how: Raise, cause: Cause): Outcome {
    if how.Caught? then Failed(ExtractionFailed) else Escaped(cause)
  }

  /** The bytes that come out before the end of the file or an error. */
  function Data(answers: seq<Read>): Bytes {
    if answers == [] || answers[0].Raised? || answers[0].bytes == [] then []
    else answers[0].bytes + Data(answers[1..])
  }

  /** How reading ends: at the end of the file or with an exception before it. */
  function EndOf(answers: seq<Read>): (end: Option<Raise>) {
    if answers == [] then None
    else if answers[0].Raised? then Some(answers[0].how)
    else if answers[0].bytes == [] then None
    else EndOf(answers[1..])
  }

  function MemberData(member: Member): Bytes {
    if member.kind.File? && member.source.Some? then Data(member.source.value) else []
  }

  /** All bytes really in the archive, whatever its headers declare. */
  function TotalSize(members: seq<Member>): nat {
    if members == [] then 0 else TotalSize(members[..|members| - 1]) + |MemberData(members[|members| - 1])|
  }

  // ---------------------------------------------------------------------
  // Names
  // ---------------------------------------------------------------------

  /** name.split('/'), with the part begun so far. */
  function Split(name: string, part: string): (parts: seq<string>) {
    if name == "" then [part]
    else if name[0] == '/' then [part] + Split(name[1..], "")
    else Split(name[1..], part + [name[0]])
  }

  /** PurePosixPath(name).parts of a relative name: empty and "." components vanish. */
  function Kept(components: seq<string>): seq<string> {
    if components == [] then []
    else (if components[0] == "" || components[0] == "." then [] else [components[0]]) + Kept(components[1..])
  }

  function Parts(name: string): seq<string> { Kept(Split(name, "")) }

  function RejectUnsafeName(name: string): Outcome {
    if name == "" then Failed(EmptyName)
    else if name[0] == '/' || name[0] == '\\' then Failed(AbsolutePath)
    else if '\\' in name then Failed(Backslash)
    else if ".." in Parts(name) then Failed(Traversal)
    else Fine
  }

  function Target(dest: Path, member: Member): Path { dest + Parts(member.name) }

  /** The operating system is never asked about such a path: Python raises ValueError. */
  predicate HasNul(p: Path) { exists i :: 0 <= i < |p| && '\0' in p[i] }

  function Parent(p: Path): Path { if p == [] then [] else p[..|p| - 1] }

  predicate Under(dest: Path, p: Path) { |dest| <= |p| && p[..|dest|] == dest }

  /** Where the operating system ends up walking these components from a directory. */
  function Resolve(at: Path, components: seq<string>): Path
    decreases |components|
  {
    if components == [] then at
    else
      var next := if components[0] == "" || components[0] == "." then at
                  else if components[0] == ".." then Parent(at)
                  else at + [components[0]];
      Resolve(next, components[1..])
  }

  lemma {:induction false} ResolveWithoutDots(at: Path, components: seq<string>)
    requires ".." !in Kept(components)
    ensures Resolve(at, components) == at + Kept(components)
    decreases |components|
  {
    if components != [] {
      var first := components[0];
      if first == "" || first == "." {
        ResolveWithoutDots(at, components[1..]);
      } else {
        assert first == Kept(components)[0];
        assert Kept(components)[1..] == Kept(components[1..]);
        ResolveWithoutDots(at + [first], components[1..]);
      }
    }
  }

  function Joined(components: seq<string>): string {
    if components == [] then "" else if |components| == 1 then components[0] else components[0] + "/" + Joined(components[1..])
  }

  /** The components are the pieces between the slashes. */
  lemma {:induction false} SplitIsAtSlashes(name: string, part: string)
    requires '/' !in part
    ensures Split(name, part) != [] && Joined(Split(name, part)) == part + name
    ensures forall c | c in Split(name, part) :: '/' !in c
    decreases |name|
  {
    if name == "" {
      assert part + name == part;
    } else if name[0] == '/' {
      SplitIsAtSlashes(name[1..], "");
      var rest := Split(name[1..], "");
      assert Split(name, part) == [part] + rest && Split(name, part)[1..] == rest;
      assert "" + name[1..] == name[1..];
      assert part + "/" + name[1..] == part + name;
    } else {
      SplitIsAtSlashes(name[1..], part + [name[0]]);
      assert part + [name[0]] + name[1..] == part + name;
    }
  }

  lemma {:induction false} KeptMeans(components: seq<string>, c: string)
    requires c != "" && c != "."
    ensures c in Kept(components) <==> c in components
  {
    if components != [] {
      KeptMeans(components[1..], c);
      assert components == [components[0]] + components[1..];
    }
  }

  /** A name is accepted iff it is not empty, does not start with a slash, has no backslash, and
      none of its pieces between slashes is "..". */
  lemma AcceptedIff(name: string)
    ensures RejectUnsafeName(name).Fine? <==>
              name != "" && name[0] != '/' && '\\' !in name && ".." !in Split(name, "")
  {
    assert ".." != "" && ".." != "." by {
      assert |".."| == 2 && |"."| == 1;
    }
    KeptMeans(Split(name, ""), "..");
  }

  /** An accepted name leads to its target, and the target lies in dest. */
  lemma AcceptedNameStaysInside(dest: Path, member: Member)
    requires RejectUnsafeName(member.name).Fine?
    ensures Resolve(dest, Split(member.name, "")) == Target(dest, member)
    ensures Under(dest, Target(dest, member))
  {
    ResolveWithoutDots(dest, Split(member.name, ""));
  }

  // ---------------------------------------------------------------------
  // Disks
  // ---------------------------------------------------------------------

  datatype Disk = Disk(files: map<Path, Bytes>, dirs: set<Path>)

  /** Everything on the disk lies in directories that are on the disk. */
  ghost predicate IsTree(d: Disk) {
    && [] in d.dirs
    && (forall p | p in d.files :: p !in d.dirs)
    && (forall p: Path, i | p in d.files && 0 <= i < |p| :: p[..i] in d.dirs)
    && (forall p: Path, i | p in d.dirs && 0 <= i < |p| :: p[..i] in d.dirs)
  }

  /** A file stands where mkdir(parents=True) needs a directory. */
  predicate Blocked(d: Disk, p: Path) {
    exists i :: 0 <= i <= |p| && p[..i] in d.files
  }

  function Ancestors(p: Path): (s: set<Path>)
    ensures p in s
    ensures forall q :: q in s <==> Under(q, p)
  {
    var s := set i | 0 <= i <= |p| :: p[..i];
    assert p[..|p|] == p;
    s
  }

  function WithDir(d: Disk, p: Path): Disk { d.(dirs := d.dirs + Ancestors(p)) }

  function WithFile(d: Disk, p: Path, bytes: Bytes): Disk { d.(files := d.files[p := bytes]) }

  /** rmtree. */
  function Pruned(d: Disk, dest: Path): Disk {
    Disk(map p | p in d.files && !Under(dest, p) :: d.files[p], set p | p in d.dirs && !Under(dest, p))
  }

  predicate IsEmptyDir(d: Disk, p: Path) {
    p in d.dirs && p != [] && forall q | q in d.files.Keys + d.dirs :: Under(p, q) ==> q == p
  }

  /** unlink a file, rmdir an empty directory; every other case raises and is passed over. */
  function Removed(d: Disk, p: Path): Disk {
    if p in d.files then d.(files := d.files - {p})
    else if IsEmptyDir(d, p) then d.(dirs := d.dirs - {p})
    else d
  }

  function Undone(d: Disk, extracted: seq<Path>): Disk
    decreases |extracted|
  {
    if extracted == [] then d
    else Undone(Removed(d, extracted[|extracted| - 1]), extracted[..|extracted| - 1])
  }

  // ---------------------------------------------------------------------
  // What an extraction should amount to
  // ---------------------------------------------------------------------

  predicate Acceptable(member: Member) {
    RejectUnsafeName(member.name).Fine? && (member.kind.File? || member.kind.Directory? || member.kind.Other?)
  }

  /** The member gets as far as being put on the list of extracted paths. */
  predicate Reaches(d: Disk, member: Member, dest: Path, maxMember: int) {
    var target := Target(dest, member);
    match member.kind
    case Directory => !HasNul(target) && !Blocked(d, target)
    case File =>
      && member.size <= maxMember && member.source.Some?
      && !HasNul(Parent(target)) && !Blocked(d, Parent(target))
    case _ => false
  }

  /** It can be extracted onto d: its place is free and its sizes, declared and real, are in bounds. */
  predicate Fits(d: Disk, member: Member, dest: Path, maxMember: int) {
    var target := Target(dest, member);
    && Reaches(d, member, dest, maxMember)
    && (member.kind.File? ==>
          && !HasNul(target) && target !in WithDir(d, Parent(target)).dirs
          && |MemberData(member)| <= maxMember && EndOf(member.source.value).None?)
  }

  /** The member meets an exception that no except clause names. */
  function EscapeOf(d: Disk, member: Member, dest: Path, before: nat, maxMember: int, maxTotal: int): (e: Option<Cause>)
    ensures e.Some? ==> e.value in {NulInName, ReadRaised}
  {
    var target := Target(dest, member);
    match member.kind
    case Directory => if HasNul(target) then Some(NulInName) else None
    case File =>
      if member.size > maxMember || member.source.None? then None
      else if HasNul(Parent(target)) then Some(NulInName)
      else if Blocked(d, Parent(target)) then None
      else if HasNul(target) then Some(NulInName)
      else if target in WithDir(d, Parent(target)).dirs then None
      else if |MemberData(member)| > maxMember || before + |MemberData(member)| > maxTotal then None
      else if EndOf(member.source.value) == Some(Escaping) then Some(ReadRaised)
      else None
    case _ => None
  }

  /** The disk with the member on it: a file holds exactly the member's bytes. */
  function Placed(d: Disk, member: Member, dest: Path): Disk {
    var target := Target(dest, member);
    match member.kind
    case Directory => WithDir(d, target)
    case File => WithFile(WithDir(d, Parent(target)), target, MemberData(member))
    case _ => d
  }

  /** The disk as an escaping exception at the member leaves it: nothing is undone. */
  function Abandoned(d: Disk, member: Member, dest: Path): Disk {
    var target := Target(dest, member);
    if !HasNul(target) then Placed(d, member, dest)
    else if member.kind.File? && !HasNul(Parent(target)) then WithDir(d, Parent(target))
    else d
  }

  function After(d: Disk, members: seq<Member>, dest: Path): Disk {
    if members == [] then d
    else Placed(After(d, members[..|members| - 1], dest), members[|members| - 1], dest)
  }

  ghost predicate FitsAt(d: Disk, members: seq<Member>, i: nat, dest: Path, maxMember: int)
    requires i < |members|
  {
    Fits(After(d, members[..i], dest), members[i], dest, maxMember)
  }

  ghost predicate AllFit(d: Disk, members: seq<Member>, dest: Path, maxMember: int, maxTotal: int) {
    && (forall i | 0 <= i < |members| :: FitsAt(d, members, i, dest, maxMember))
    && TotalSize(members) <= maxTotal
  }

  ghost predicate GoesAt(d: Disk, members: seq<Member>, i: nat, dest: Path, maxMember: int, maxTotal: int)
    requires i < |members|
  {
    FitsAt(d, members, i, dest, maxMember) && TotalSize(members[..i + 1]) <= maxTotal
  }

  /** The first member from k on that does not fit or bursts the total cap; |members| if there is none. */
  ghost function StopFrom(d: Disk, members: seq<Member>, dest: Path, maxMember: int, maxTotal: int, k: nat): (i: nat)
    requires k <= |members|
    ensures k <= i <= |members|
    ensures forall j | k <= j < i :: GoesAt(d, members, j, dest, maxMember, maxTotal)
    ensures i < |members| ==> !GoesAt(d, members, i, dest, maxMember, maxTotal)
    decreases |members| - k
  {
    if k < |members| && GoesAt(d, members, k, dest, maxMember, maxTotal)
    then StopFrom(d, members, dest, maxMember, maxTotal, k + 1)
    else k
  }

  ghost function Stop(d: Disk, members: seq<Member>, dest: Path, maxMember: int, maxTotal: int): (i: nat)
    ensures i <= |members|
  {
    StopFrom(d, members, dest, maxMember, maxTotal, 0)
  }

  /** The targets of the first n members. */
  function Targets(members: seq<Member>, dest: Path, n: nat): (paths: seq<Path>)
    requires n <= |members|
    ensures |paths| == n && forall i | 0 <= i < n :: paths[i] == Target(dest, members[i])
  {
    seq(n, i requires 0 <= i < n => Target(dest, members[i]))
  }

  /** The paths put on the list: those of the members before the stop, and that of the member
      at the stop if it got that far. */
  ghost function Recorded(d: Disk, members: seq<Member>, dest: Path, maxMember: int, maxTotal: int): seq<Path> {
    var i := Stop(d, members, dest, maxMember, maxTotal);
    if i < |members| && Reaches(After(d, members[..i], dest), members[i], dest, maxMember)
    then Targets(members, dest, i + 1)
    else Targets(members, dest, i)
  }

  /** How the extraction of the members escapes, if it does. */
  ghost function EscapeAtStop(d: Disk, members: seq<Member>, dest: Path, maxMember: int, maxTotal: int): (e: Option<Cause>)
    ensures e.Some? ==> e.value in {NulInName, ReadRaised}
  {
    var i := Stop(d, members, dest, maxMember, maxTotal);
    if i == |members| then None
    else EscapeOf(After(d, members[..i], dest), members[i], dest, TotalSize(members[..i]), maxMember, maxTotal)
  }

  ghost function AbandonedAtStop(d: Disk, members: seq<Member>, dest: Path, maxMember: int, maxTotal: int): Disk {
    var i := Stop(d, members, dest, maxMember, maxTotal);
    if i == |members| then After(d, members, dest)
    else Abandoned(After(d, members[..i], dest), members[i], dest)
  }

  // ---------------------------------------------------------------------
  // What is written, moment by moment
  // ---------------------------------------------------------------------

  datatype Event = Opened(path: Path) | Wrote(path: Path, bytes: Bytes)

  /** Bytes written altogether. */
  ghost function Written(journal: seq<Event>): nat {
    if journal == [] then 0
    else
      var last := journal[|journal| - 1];
      Written(journal[..|journal| - 1]) + if last.Wrote? then |last.bytes| else 0
  }

  /** Bytes written since a file was last opened. */
  ghost function WrittenToLast(journal: seq<Event>): nat {
    if journal == [] then 0
    else
      var last := journal[|journal| - 1];
      if last.Wrote? then WrittenToLast(journal[..|journal| - 1]) + |last.bytes| else 0
  }

  ghost predicate CarefulAt(journal: seq<Event>, k: nat, dest: Path, maxMember: int, maxTotal: int)
    requires k <= |journal|
  {
    && Written(journal[..k]) <= maxTotal
    && WrittenToLast(journal[..k]) <= maxMember
    && (k < |journal| ==> Under(dest, journal[k].path))
  }

  /** At every moment both caps are respected, and only paths in dest are opened or written. */
  ghost predicate Careful(journal: seq<Event>, dest: Path, maxMember: int, maxTotal: int) {
    forall k | 0 <= k <= |journal| :: CarefulAt(journal, k, dest, maxMember, maxTotal)
  }

  lemma CarefulGrows(journal: seq<Event>, event: Event, dest: Path, maxMember: int, maxTotal: int)
    requires Careful(journal, dest, maxMember, maxTotal)
    requires Under(dest, event.path)
    requires event.Wrote? ==> Written(journal) + |event.bytes| <= maxTotal
    requires event.Wrote? ==> WrittenToLast(journal) + |event.bytes| <= maxMember
    ensures Careful(journal + [event], dest, maxMember, maxTotal)
    ensures Written(journal + [event]) == Written(journal) + if event.Wrote? then |event.bytes| else 0
    ensures WrittenToLast(journal + [event]) == if event.Wrote? then WrittenToLast(journal) + |event.bytes| else 0
  {
    var longer := journal + [event];
    assert longer[..|journal|] == journal && longer[..|longer|] == longer;
    assert CarefulAt(journal, |journal|, dest, maxMember, maxTotal) && journal[..|journal|] == journal;
    forall k | 0 <= k <= |longer| ensures CarefulAt(longer, k, dest, maxMember, maxTotal) {
      if k <= |journal| {
        assert CarefulAt(journal, k, dest, maxMember, maxTotal);
        assert longer[..k] == journal[..k];
      }
    }
  }

  lemma CarefulNow(journal: seq<Event>, dest: Path, maxMember: int, maxTotal: int)
    requires Careful(journal, dest, maxMember, maxTotal)
    ensures Written(journal) <= maxTotal && WrittenToLast(journal) <= maxMember
  {
    assert CarefulAt(journal, |journal|, dest, maxMember, maxTotal);
    assert journal[..|journal|] == journal;
  }

  // ---------------------------------------------------------------------
  // The file system and the extraction
  // ---------------------------------------------------------------------

  class FileSystem {
    var disk: Disk
    /** The files opened and the chunks written by the current call. */
    ghost var journal: seq<Event>

    constructor (d: Disk)
      ensures disk == d && journal == []
    {
      disk := d;
      journal := [];
    }

    /** mkdir(parents=True, exist_ok=True): a NUL raises ValueError, a file in the way an OSError. */
    method MakeDir(p: Path) returns (problem: Option<Raise>)
      modifies this`disk
      ensures problem == if HasNul(p) then Some(Escaping) else if Blocked(old(disk), p) then Some(Caught) else None
      ensures disk == if problem.None? then WithDir(old(disk), p) else old(disk)
    {
      if HasNul(p) {
        return Some(Escaping);
      }
      if Blocked(disk, p) {
        return Some(Caught);
      }
      disk := WithDir(disk, p);
      problem := None;
    }

    /** The copying loop of _stream_extract, for one member opened at target. */
    method CopyMember(answers: seq<Read>, target: Path, before: nat, dest: Path, maxMember: int, maxTotal: int)
      returns (outcome: Outcome, total: nat)
      requires target in disk.files && disk.files[target] == [] && Under(dest, target)
      requires Careful(journal, dest, maxMember, maxTotal) && Written(journal) == before && WrittenToLast(journal) == 0
      modifies this
      ensures outcome.Fine? <==>
                EndOf(answers).None? && |Data(answers)| <= maxMember && before + |Data(answers)| <= maxTotal
      ensures outcome.Fine? ==> total == before + |Data(answers)| && Written(journal) == total
      ensures outcome.Escaped? <==>
                EndOf(answers) == Some(Escaping) && |Data(answers)| <= maxMember && before + |Data(answers)| <= maxTotal
      ensures outcome.Escaped? ==> outcome.cause == ReadRaised
      ensures !outcome.Failed? ==> disk == WithFile(old(disk), target, Data(answers))
      ensures outcome == Failed(MemberCap) ==> |Data(answers)| > maxMember
      ensures outcome == Failed(TotalCap) ==> before + |Data(answers)| > maxTotal
      ensures outcome.Failed? ==> outcome.error in {MemberCap, TotalCap, ExtractionFailed}
      ensures exists bytes :: disk == WithFile(old(disk), target, bytes)
      ensures Careful(journal, dest, maxMember, maxTotal)
    {
      hide Careful, Written, WrittenToLast, Under;
      outcome := Fine;
      total := before;
      CarefulNow(journal, dest, maxMember, maxTotal);
      var written := 0;
      var k := 0;
      ghost var done: Bytes := [];
      assert answers[0..] == answers;
      assert old(disk) == WithFile(old(disk), target, done) by {
        assert old(disk).files[target := []] == old(disk).files;
      }
      while k < |answers|
        invariant 0 <= k <= |answers|
        invariant written == |done| && total == before + written && written <= maxMember && total <= maxTotal
        invariant Data(answers) == done + Data(answers[k..]) && EndOf(answers) == EndOf(answers[k..])
        invariant disk == WithFile(old(disk), target, done)
        invariant Careful(journal, dest, maxMember, maxTotal)
        invariant Written(journal) == total && WrittenToLast(journal) == written
      {
        if answers[k].Raised? {
          assert Data(answers[k..]) == [];
          assert Data(answers) == done;
          return Ended(answers[k].how, ReadRaised), total;
        }
        var chunk := answers[k].bytes;
        if chunk == [] {
          break;
        }
        ReadOn(answers, k, done);
        written := written + |chunk|;
        total := total + |chunk|;
        if written > maxMember {
          return Failed(MemberCap), total;
        }
        if total > maxTotal {
          return Failed(TotalCap), total;
        }
        CarefulGrows(journal, Wrote(target, chunk), dest, maxMember, maxTotal);
        disk := WithFile(disk, target, disk.files[target] + chunk);
        journal := journal + [Wrote(target, chunk)];
        done := done + chunk;
        k := k + 1;
      }
      assert Data(answers[k..]) == [] && EndOf(answers[k..]).None?;
      assert Data(answers) == done;
    }

    /** One round of _stream_extract; recorded tells whether the target was put on the list. */
    method ExtractMember(member: Member, before: nat, dest: Path, maxMember: int, maxTotal: int)
      returns (outcome: Outcome, total: nat, recorded: bool)
      requires RejectUnsafeName(member.name).Fine?
      requires dest in disk.dirs && IsTree(disk)
      requires Careful(journal, dest, maxMember, maxTotal) && Written(journal) == before
      modifies this
      ensures outcome.Fine? <==>
                Fits(old(disk), member, dest, maxMember) && before + |MemberData(member)| <= maxTotal
      ensures outcome.Fine? ==> disk == Placed(old(disk), member, dest)
      ensures outcome.Fine? ==> total == before + |MemberData(member)| && Written(journal) == total
      ensures var escape := EscapeOf(old(disk), member, dest, before, maxMember, maxTotal);
              outcome.Escaped? <==> escape.Some? && outcome == Escaped(escape.value)
      ensures outcome.Escaped? <==> EscapeOf(old(disk), member, dest, before, maxMember, maxTotal).Some?
      ensures outcome.Escaped? ==> disk == Abandoned(old(disk), member, dest)
      ensures outcome.Failed? ==> Explains(outcome.error, member, before, maxMember, maxTotal)
      ensures recorded <==> Reaches(old(disk), member, dest, maxMember)
      ensures OnlyTouched(old(disk), disk, if recorded then [Target(dest, member)] else [], dest)
      ensures Careful(journal, dest, maxMember, maxTotal)
      ensures IsTree(disk) && dest in disk.dirs
    {
      hide IsTree, OnlyTouched, Careful, Written, WrittenToLast, Placed, Blocked, WithDir, WithFile, HasNul;
      hide RejectUnsafeName, Parts, Under, Data, EndOf, Fits, Reaches, EscapeOf, Abandoned;
      outcome, total, recorded := Fine, before, true;
      var target := dest + Parts(member.name);
      AcceptedNameStaysInside(dest, member);
      Verdicts(disk, member, dest, before, maxMember, maxTotal);
      CarefulNow(journal, dest, maxMember, maxTotal);
      NothingTouched(disk, dest, target);
      if member.kind.Directory? {
        var problem := MakeDir(target);
        if problem.Some? {
          return Ended(problem.value, NulInName), total, false;
        }
        TouchDir(old(disk), old(disk), [target], dest, target);
        return;
      }
      if member.kind.Symlink? || member.kind.Hardlink? {
        return Failed(LinkMember), total, false;
      }
      if !member.kind.File? {
        return Failed(UnsupportedType), total, false;
      }
      if member.size > maxMember {
        return Failed(MemberCap), total, false;
      }
      if member.source.None? {
        return Failed(NoContent), total, false;
      }
      FileVerdicts(disk, member, dest, before, maxMember, maxTotal);
      var problem := MakeDir(Parent(target));
      if problem.Some? {
        return Ended(problem.value, NulInName), total, false;
      }
      ghost var ready := disk;
      ParentInside(dest, target);
      TouchDir(old(disk), old(disk), [target], dest, Parent(target));
      if HasNul(target) {
        return Escaped(NulInName), total, true;
      }
      if target in disk.dirs {
        return Failed(ExtractionFailed), total, true;
      }
      CarefulGrows(journal, Opened(target), dest, maxMember, maxTotal);
      Overwrite(ready, target, []);
      disk := WithFile(disk, target, []);
      journal := journal + [Opened(target)];
      outcome, total := CopyMember(member.source.value, target, before, dest, maxMember, maxTotal);
      ghost var bytes :| disk == WithFile(WithFile(ready, target, []), target, bytes);
      Overwrite(ready, target, bytes);
      Overwrite(ready, target, MemberData(member));
      TouchFile(old(disk), ready, [target], dest, target, bytes);
    }

    /** _stream_extract. */
    method StreamExtract(members: seq<Member>, dest: Path, maxMember: int, maxTotal: int)
      returns (outcome: Outcome, extracted: seq<Path>)
      requires forall m | m in members :: RejectUnsafeName(m.name).Fine?
      requires 0 <= maxMember && 0 <= maxTotal
      requires dest in disk.dirs && IsTree(disk) && journal == []
      modifies this
      ensures outcome.Fine? <==> AllFit(old(disk), members, dest, maxMember, maxTotal)
      ensures outcome.Fine? ==> disk == After(old(disk), members, dest)
      ensures outcome.Escaped? <==> EscapeAtStop(old(disk), members, dest, maxMember, maxTotal).Some?
      ensures outcome.Escaped? ==>
                && EscapeAtStop(old(disk), members, dest, maxMember, maxTotal) == Some(outcome.cause)
                && disk == AbandonedAtStop(old(disk), members, dest, maxMember, maxTotal)
      ensures outcome.Failed? ==> Justified(outcome.error, members, maxMember, maxTotal) && outcome.error != BadCaps
      ensures extracted == Recorded(old(disk), members, dest, maxMember, maxTotal)
      ensures Careful(journal, dest, maxMember, maxTotal)
      ensures OnlyTouched(old(disk), disk, extracted, dest)
      ensures IsTree(disk) && dest in disk.dirs
    {
      hide IsTree, OnlyTouched, Careful, Written, After, Placed, TotalSize, RejectUnsafeName, MemberData;
      hide Justified, Explains, Fits, Reaches, EscapeOf, Abandoned, AllFit, StopFrom, Parts;
      outcome := Fine;
      extracted := [];
      var total := 0;
      var k := 0;
      NothingYet(disk, dest, maxMember, maxTotal);
      while k < |members|
        invariant 0 <= k <= |members| && outcome.Fine?
        invariant disk == After(old(disk), members[..k], dest)
        invariant StopFrom(old(disk), members, dest, maxMember, maxTotal, 0)
               == StopFrom(old(disk), members, dest, maxMember, maxTotal, k)
        invariant total == TotalSize(members[..k]) && Written(journal) == total
        invariant Careful(journal, dest, maxMember, maxTotal)
        invariant OnlyTouched(old(disk), disk, extracted, dest)
        invariant extracted == Targets(members, dest, k)
        invariant IsTree(disk) && dest in disk.dirs
      {
        ghost var was := disk;
        OneMore(old(disk), members, k, dest);
        StopStep(old(disk), members, dest, maxMember, maxTotal, k);
        TargetsStep(members, dest, k);
        var recorded: bool;
        outcome, total, recorded := ExtractMember(members[k], total, dest, maxMember, maxTotal);
        ghost var added := if recorded then [Target(dest, members[k])] else [];
        TouchAgain(old(disk), was, disk, extracted, added, dest);
        assert extracted + [] == extracted;
        if recorded {
          extracted := extracted + [dest + Parts(members[k].name)];
        }
        if !outcome.Fine? {
          StopIsAll(old(disk), members, dest, maxMember, maxTotal);
          if outcome.Failed? {
            ExplainsJustified(outcome.error, members, k, maxMember, maxTotal);
          }
          return;
        }
        FittingReaches(was, members[k], dest, maxMember);
        k := k + 1;
      }
      assert members[..k] == members;
      StopStep(old(disk), members, dest, maxMember, maxTotal, k);
      StopIsAll(old(disk), members, dest, maxMember, maxTotal);
    }

    /** _cleanup_partial. */
    method CleanupPartial(dest: Path, created: bool, extracted: seq<Path>)
      modifies this`disk
      ensures disk == if created then Pruned(old(disk), dest) else Undone(old(disk), extracted)
    {
      if created {
        disk := Pruned(disk, dest);
        return;
      }
      var k := |extracted|;
      assert extracted[..k] == extracted;
      while k > 0
        invariant 0 <= k <= |extracted|
        invariant Undone(disk, extracted[..k]) == Undone(old(disk), extracted)
      {
        k := k - 1;
        assert extracted[..k + 1][..k] == extracted[..k];
        disk := Removed(disk, extracted[k]);
      }
    }

    /** extract_safe. */
    method ExtractSafe(archive: Archive, dest: Path, maxMember: int, maxTotal: int) returns (outcome: Outcome)
      requires IsTree(disk)
      modifies this
      ensures outcome == Failed(BadCaps) <==> !(0 < maxMember <= maxTotal)
      ensures outcome == Escaped(DestinationUnusable) <==> SaneCaps(maxMember, maxTotal) && !IsUsable(old(disk), dest)
      ensures !Starts(old(disk), dest, maxMember, maxTotal) ==> disk == old(disk)
      ensures Starts(old(disk), dest, maxMember, maxTotal) ==>
                EndsAsItShould(old(disk), WithDir(old(disk), dest), archive, dest, maxMember, maxTotal, outcome, disk)
      ensures journal == [] || Careful(journal, dest, maxMember, maxTotal)
      ensures IsTree(disk)
    {
      hide IsTree, OnlyTouched, AllFit, After, Careful, Pruned, Undone, RejectUnsafeName, Blocked, WithDir, HasNul;
      hide Recorded, EscapeAtStop, AbandonedAtStop, Justified;
      journal := [];
      if !SaneCaps(maxMember, maxTotal) {
        return Failed(BadCaps);
      }
      var created := !(dest in disk.dirs || dest in disk.files);
      var problem := MakeDir(dest);
      if problem.Some? {
        return Escaped(DestinationUnusable);
      }
      MadeDestination(old(disk), dest);
      NothingYet(disk, dest, maxMember, maxTotal);
      var extracted: seq<Path> := [];
      if archive.Unreadable? {
        outcome := Ended(archive.how, ArchiveRaised);
      } else {
        outcome := ValidateMembers(archive.members);
        if outcome.Fine? {
          outcome, extracted := StreamExtract(archive.members, dest, maxMember, maxTotal);
        }
      }
      TouchedInside(WithDir(old(disk), dest), disk, extracted, dest);
      if outcome.Failed? {
        ghost var partial := disk;
        CleanupPartial(dest, created, extracted);
        if created {
          PrunedRestores(old(disk), partial, extracted, dest);
        } else {
          UndoneRestores(old(disk), partial, extracted, dest);
        }
      }
    }
  }

  /** mkdir of the destination succeeds. */
  predicate IsUsable(d: Disk, dest: Path) { !HasNul(dest) && !Blocked(d, dest) }

  predicate Starts(d: Disk, dest: Path, maxMember: int, maxTotal: int) {
    SaneCaps(maxMember, maxTotal) && IsUsable(d, dest)
  }

  /** The members that are streamed: all of a readable archive, if all of them are acceptable. */
  ghost function Streamed(archive: Archive): (members: Option<seq<Member>>) {
    if archive.Members? && forall m | m in archive.members :: Acceptable(m) then Some(archive.members) else None
  }

  /** The exception that leaves the call, if any, in terms of what it is given. */
  ghost function EscapeFrom(made: Disk, archive: Archive, dest: Path, maxMember: int, maxTotal: int): (e: Option<Cause>)
    ensures e != Some(DestinationUnusable)
  {
    if archive == Unreadable(Escaping) then Some(ArchiveRaised)
    else if Streamed(archive).None? then None
    else EscapeAtStop(made, archive.members, dest, maxMember, maxTotal)
  }

  /** The paths a failed call has touched, in terms of what it is given. */
  ghost function Touched(made: Disk, archive: Archive, dest: Path, maxMember: int, maxTotal: int): seq<Path> {
    if Streamed(archive).None? then [] else Recorded(made, archive.members, dest, maxMember, maxTotal)
  }

  ghost function LeftBehind(made: Disk, archive: Archive, dest: Path, maxMember: int, maxTotal: int): Disk {
    if Streamed(archive).None? then made else AbandonedAtStop(made, archive.members, dest, maxMember, maxTotal)
  }

  /** How a call that got past its first checks ends, and what it leaves: everything in place on
      success; everything as it was, but for the files touched, when it raises BundleError; and
      everything extracted so far when another exception escapes. */
  ghost predicate EndsAsItShould(was: Disk, made: Disk, archive: Archive, dest: Path, maxMember: int, maxTotal: int,
                                 outcome: Outcome, now: Disk) {
    && (outcome.Fine? <==> Streamed(archive).Some? && AllFit(made, archive.members, dest, maxMember, maxTotal))
    && (outcome.Fine? ==> now == After(made, archive.members, dest))
    && (outcome.Escaped? <==> EscapeFrom(made, archive, dest, maxMember, maxTotal).Some?)
    && (outcome.Escaped? ==>
          && EscapeFrom(made, archive, dest, maxMember, maxTotal) == Some(outcome.cause)
          && now == LeftBehind(made, archive, dest, maxMember, maxTotal) && dest in now.dirs)
    && (outcome.Failed? ==> IsUndone(was, now, dest, Touched(made, archive, dest, maxMember, maxTotal)))
    && (outcome in {Failed(MemberCap), Failed(TotalCap)} ==>
          archive.Members? && Justified(outcome.error, archive.members, maxMember, maxTotal))
  }

  /** After a failure a destination that was made is gone again, with everything in it; otherwise
      exactly the files that were touched are gone. */
  ghost predicate IsUndone(was: Disk, now: Disk, dest: Path, touched: seq<Path>) {
    && (dest !in was.dirs ==> now == Disk(was.files, was.dirs + Ancestors(dest) - {dest}))
    && (dest in was.dirs ==> forall p :: p in now.files <==> p in was.files && p !in touched)
    && (forall p | p in was.dirs && p !in touched :: p in now.dirs)
    && (forall p | p in now.dirs :: p in was.dirs || Under(dest, p) || Under(p, dest))
    && (forall p | p in now.files :: p in was.files && now.files[p] == was.files[p])
  }

  predicate SaneCaps(maxMember: int, maxTotal: int) {
    maxMember > 0 && maxTotal > 0 && maxMember <= maxTotal
  }

  /** _validate_members: Fine exactly when every member is acceptable. */
  method ValidateMembers(members: seq<Member>) returns (outcome: Outcome)
    ensures !outcome.Escaped?
    ensures outcome.Fine? <==> forall m | m in members :: Acceptable(m)
    ensures outcome.Failed? ==> exists k :: IsFirstRefusal(members, k, outcome.error)
  {
    for k := 0 to |members|
      invariant forall j | 0 <= j < k :: Acceptable(members[j])
    {
      var member := members[k];
      assert member in members;
      outcome := RejectUnsafeName(member.name);
      if outcome.Failed? {
        assert IsFirstRefusal(members, k, outcome.error);
        return;
      }
      if member.kind.Device? || member.kind.Fifo? {
        assert IsFirstRefusal(members, k, SpecialMember);
        return Failed(SpecialMember);
      }
      if member.kind.Symlink? || member.kind.Hardlink? {
        assert IsFirstRefusal(members, k, LinkMember);
        return Failed(LinkMember);
      }
    }
    return Fine;
  }

  /** Member k is the first that is not acceptable, and refused for this reason. */
  predicate IsFirstRefusal(members: seq<Member>, k: nat, error: Error) {
    k < |members| && !Acceptable(members[k]) && error == Refusal(members[k]) && forall j | 0 <= j < k :: Acceptable(members[j])
  }

  /** The reason for which a member that is not acceptable is refused. */
  function Refusal(member: Member): (e: Error)
    ensures e in {EmptyName, AbsolutePath, Backslash, Traversal, SpecialMember, LinkMember}
  {
    if RejectUnsafeName(member.name).Failed? then RejectUnsafeName(member.name).error
    else if member.kind.Device? || member.kind.Fifo? then SpecialMember
    else LinkMember
  }

  /** A destination that the call made is gone after a failure exactly when no exception escaped;
      the files are then what they were. */
  lemma MadeDestinationIsGoneIff(was: Disk, archive: Archive, dest: Path, maxMember: int, maxTotal: int,
                                 outcome: Outcome, now: Disk)
    requires EndsAsItShould(was, WithDir(was, dest), archive, dest, maxMember, maxTotal, outcome, now)
    requires dest !in was.dirs && !outcome.Fine?
    ensures dest !in now.dirs <==> EscapeFrom(WithDir(was, dest), archive, dest, maxMember, maxTotal).None?
    ensures dest !in now.dirs ==> now.files == was.files
  {
  }

  /** Member i is recorded, and its target is p. */
  ghost predicate Takes(d: Disk, members: seq<Member>, dest: Path, maxMember: int, maxTotal: int, i: nat, p: Path) {
    var stop := Stop(d, members, dest, maxMember, maxTotal);
    && i < |members| && Target(dest, members[i]) == p
    && (i < stop || (i == stop && Reaches(After(d, members[..i], dest), members[i], dest, maxMember)))
  }

  /** In a destination that existed, a failure costs exactly the files named by the members before
      the first one that does not fit or bursts a cap, and by that one if it got to its open. */
  lemma FileIsLostIff(was: Disk, archive: Archive, dest: Path, maxMember: int, maxTotal: int,
                      outcome: Outcome, now: Disk, p: Path)
    requires EndsAsItShould(was, WithDir(was, dest), archive, dest, maxMember, maxTotal, outcome, now)
    requires dest in was.dirs && outcome.Failed? && p in was.files
    ensures p !in now.files <==>
              Streamed(archive).Some? && exists i :: Takes(WithDir(was, dest), archive.members, dest, maxMember, maxTotal, i, p)
  {
    hide Reaches, After, Target, Stop;
    if Streamed(archive).Some? {
      RecordedMeans(WithDir(was, dest), archive.members, dest, maxMember, maxTotal, p);
    }
  }

  lemma RecordedMeans(d: Disk, members: seq<Member>, dest: Path, maxMember: int, maxTotal: int, p: Path)
    ensures p in Recorded(d, members, dest, maxMember, maxTotal)
       <==> exists i :: Takes(d, members, dest, maxMember, maxTotal, i, p)
  {
    hide Reaches, After, Target, Stop;
    var recorded := Recorded(d, members, dest, maxMember, maxTotal);
    if p in recorded {
      var i :| 0 <= i < |recorded| && recorded[i] == p;
      assert Takes(d, members, dest, maxMember, maxTotal, i, p);
    }
    if exists i: nat :: Takes(d, members, dest, maxMember, maxTotal, i, p) {
      var i: nat :| Takes(d, members, dest, maxMember, maxTotal, i, p);
      assert recorded[i] == p;
    }
  }

  lemma StopStep(d: Disk, members: seq<Member>, dest: Path, maxMember: int, maxTotal: int, k: nat)
    requires k <= |members|
    ensures StopFrom(d, members, dest, maxMember, maxTotal, k)
         == if k < |members| && GoesAt(d, members, k, dest, maxMember, maxTotal)
            then StopFrom(d, members, dest, maxMember, maxTotal, k + 1)
            else k
  {
  }

  /** Everything fits exactly when the extraction does not stop early. */
  lemma StopIsAll(d: Disk, members: seq<Member>, dest: Path, maxMember: int, maxTotal: int)
    requires 0 <= maxTotal
    ensures AllFit(d, members, dest, maxMember, maxTotal) <==> Stop(d, members, dest, maxMember, maxTotal) == |members|
  {
    hide TotalSize, FitsAt;
    var i := Stop(d, members, dest, maxMember, maxTotal);
    assert members[..|members|] == members;
    if i < |members| {
      TotalGrows(members, i + 1);
    } else if members == [] {
      assert TotalSize(members) == 0 by {
        NothingYet(d, dest, 0, 0);
      }
    } else {
      assert GoesAt(d, members, |members| - 1, dest, maxMember, maxTotal);
      forall j | 0 <= j < |members| ensures FitsAt(d, members, j, dest, maxMember) {
        assert GoesAt(d, members, j, dest, maxMember, maxTotal);
      }
    }
  }

  lemma TargetsStep(members: seq<Member>, dest: Path, k: nat)
    requires k < |members|
    ensures Targets(members, dest, k + 1) == Targets(members, dest, k) + [Target(dest, members[k])]
  {
  }

  lemma FittingReaches(d: Disk, member: Member, dest: Path, maxMember: int)
    requires Fits(d, member, dest, maxMember)
    ensures Reaches(d, member, dest, maxMember)
  {
  }

  lemma MadeDestination(d: Disk, dest: Path)
    requires IsTree(d) && !Blocked(d, dest)
    ensures IsTree(WithDir(d, dest)) && dest in WithDir(d, dest).dirs && dest !in d.files
    ensures dest in d.dirs ==> WithDir(d, dest) == d
  {
    WithDirKeepsTree(d, dest);
    assert dest[..|dest|] == dest;
    if dest in d.dirs {
      forall q | q in Ancestors(dest) ensures q in d.dirs {
        assert dest[..|q|] == q;
      }
    }
  }

  lemma TouchedInside(was: Disk, now: Disk, extracted: seq<Path>, dest: Path)
    requires OnlyTouched(was, now, extracted, dest)
    ensures forall p | p in extracted :: Under(dest, p)
  {
  }

  /** A directory that this call made disappears again with all that was put into it. */
  lemma PrunedRestores(was: Disk, now: Disk, extracted: seq<Path>, dest: Path)
    requires IsTree(was) && dest !in was.dirs && dest !in was.files
    requires OnlyTouched(WithDir(was, dest), now, extracted, dest)
    ensures Pruned(now, dest) == Disk(was.files, was.dirs + Ancestors(dest) - {dest})
    ensures forall p | p in extracted :: p !in was.files
    ensures IsTree(now) ==> IsTree(Pruned(now, dest))
  {
    NothingInside(was, dest);
    assert Pruned(now, dest).files == was.files;
    forall q | Under(q, dest) && Under(dest, q) ensures q == dest {
    }
    assert Pruned(now, dest).dirs == was.dirs + Ancestors(dest) - {dest};
    if IsTree(now) {
      PrunedKeepsTree(now, dest);
    }
  }

  lemma NothingInside(d: Disk, dest: Path)
    requires IsTree(d) && dest !in d.dirs && dest !in d.files
    ensures forall p | Under(dest, p) :: p !in d.files && p !in d.dirs
  {
    forall p | Under(dest, p) ensures p !in d.files && p !in d.dirs {
      assert p[..|dest|] == dest;
      assert |p| == |dest| ==> p == dest;
    }
  }

  lemma PrunedKeepsTree(d: Disk, dest: Path)
    requires IsTree(d) && dest != []
    ensures IsTree(Pruned(d, dest))
  {
    forall p: Path, i | 0 <= i < |p| && Under(dest, p[..i]) ensures Under(dest, p) {
      assert p[..i][..|dest|] == p[..|dest|];
    }
  }

  /** The files left are those that were there and were not touched; overwritten ones are lost. */
  lemma UndoneRestores(was: Disk, now: Disk, extracted: seq<Path>, dest: Path)
    requires IsTree(now) && OnlyTouched(was, now, extracted, dest)
    ensures var left := Undone(now, extracted);
            && (forall p :: p in left.files <==> p in was.files && p !in extracted)
            && (forall p | p in left.files :: left.files[p] == was.files[p])
            && (forall p | p in was.dirs && p !in extracted :: p in left.dirs)
            && (forall p | p in left.dirs :: p in was.dirs || Under(dest, p))
            && IsTree(left)
  {
    UndoneFiles(now, extracted);
  }

  lemma {:induction false} UndoneFiles(d: Disk, extracted: seq<Path>)
    requires IsTree(d)
    ensures IsTree(Undone(d, extracted))
    ensures Undone(d, extracted).files == d.files - (set p | p in extracted)
    ensures Undone(d, extracted).dirs <= d.dirs && forall p | p in d.dirs && p !in extracted :: p in Undone(d, extracted).dirs
    decreases |extracted|
  {
    if extracted != [] {
      var n := |extracted| - 1;
      RemovedKeepsTree(d, extracted[n]);
      UndoneFiles(Removed(d, extracted[n]), extracted[..n]);
      assert (set p | p in extracted) == (set p | p in extracted[..n]) + {extracted[n]};
    }
  }

  lemma RemovedKeepsTree(d: Disk, p: Path)
    requires IsTree(d)
    ensures IsTree(Removed(d, p))
    ensures Removed(d, p).files == d.files - {p}
  {
    if p !in d.files && IsEmptyDir(d, p) {
      forall q: Path, i | (q in d.files || q in d.dirs) && 0 <= i < |q| ensures q[..i] != p {
        assert |q| > |p| && q[..|p|] == p ==> Under(p, q);
      }
    }
  }

  /** One step of the cleanup: a file goes; a directory goes iff it is not the root and nothing is
      left in it; everything else stays. */
  lemma RemovedMeans(d: Disk, p: Path)
    ensures Removed(d, p).files == d.files - {p}
    ensures p in d.dirs && p !in d.files ==>
              (p !in Removed(d, p).dirs <==> p != [] && forall q | q in d.files || q in d.dirs :: q == p || !Under(p, q))
    ensures forall q | q != p :: q in Removed(d, p).dirs <==> q in d.dirs
    ensures p !in d.dirs ==> p !in Removed(d, p).dirs
  {
  }

  lemma NothingYet(d: Disk, dest: Path, maxMember: int, maxTotal: int)
    requires 0 <= maxMember && 0 <= maxTotal
    ensures Careful([], dest, maxMember, maxTotal) && Written([]) == 0 && TotalSize([]) == 0
    ensures OnlyTouched(d, d, [], dest) && After(d, [], dest) == d
  {
  }

  lemma OneMore(d: Disk, members: seq<Member>, k: nat, dest: Path)
    requires k < |members|
    ensures After(d, members[..k + 1], dest) == Placed(After(d, members[..k], dest), members[k], dest)
    ensures TotalSize(members[..k + 1]) == TotalSize(members[..k]) + |MemberData(members[k])|
    ensures TotalSize(members) >= TotalSize(members[..k + 1])
  {
    hide MemberData, Placed;
    assert members[..k + 1][..k] == members[..k];
    TotalGrows(members, k + 1);
  }

  lemma {:induction false} TotalGrows(members: seq<Member>, k: nat)
    requires k <= |members|
    ensures TotalSize(members) >= TotalSize(members[..k])
  {
    hide MemberData;
    if k < |members| {
      TotalGrows(members[..|members| - 1], k);
      assert members[..|members| - 1][..k] == members[..k];
    } else {
      assert members[..k] == members;
    }
  }

  /** Reaches, Fits, EscapeOf and Abandoned for the members that have no content to copy. */
  lemma Verdicts(d: Disk, member: Member, dest: Path, before: nat, maxMember: int, maxTotal: int)
    ensures var target := Target(dest, member);
            member.kind.Directory? ==>
              && Placed(d, member, dest) == WithDir(d, target) && MemberData(member) == []
              && (Reaches(d, member, dest, maxMember) <==> !HasNul(target) && !Blocked(d, target))
              && (Fits(d, member, dest, maxMember) <==> !HasNul(target) && !Blocked(d, target))
              && EscapeOf(d, member, dest, before, maxMember, maxTotal) == (if HasNul(target) then Some(NulInName) else None)
              && (HasNul(target) ==> Abandoned(d, member, dest) == d)
    ensures !member.kind.Directory? && (!member.kind.File? || member.size > maxMember || member.source.None?) ==>
              && !Reaches(d, member, dest, maxMember) && !Fits(d, member, dest, maxMember)
              && EscapeOf(d, member, dest, before, maxMember, maxTotal).None?
  {
  }

  lemma ParentNul(p: Path)
    ensures HasNul(Parent(p)) ==> HasNul(p)
  {
    if HasNul(Parent(p)) {
      var i :| 0 <= i < |Parent(p)| && '\0' in Parent(p)[i];
      assert '\0' in p[i];
    }
  }

  /** And for those that have. */
  lemma FileVerdicts(d: Disk, member: Member, dest: Path, before: nat, maxMember: int, maxTotal: int)
    requires member.kind.File? && member.size <= maxMember && member.source.Some?
    ensures var target := Target(dest, member);
            var parent := Parent(target);
            var data, end := Data(member.source.value), EndOf(member.source.value);
            var inside := |data| <= maxMember && before + |data| <= maxTotal;
            var escape := EscapeOf(d, member, dest, before, maxMember, maxTotal);
            && MemberData(member) == data
            && Placed(d, member, dest) == WithFile(WithDir(d, parent), target, data)
            && (Reaches(d, member, dest, maxMember) <==> !HasNul(parent) && !Blocked(d, parent))
            && (Fits(d, member, dest, maxMember) <==>
                  && !HasNul(parent) && !Blocked(d, parent) && !HasNul(target)
                  && target !in WithDir(d, parent).dirs && |data| <= maxMember && end.None?)
            && escape == (if HasNul(parent) then Some(NulInName)
                          else if Blocked(d, parent) then None
                          else if HasNul(target) then Some(NulInName)
                          else if target in WithDir(d, parent).dirs || !inside || end != Some(Escaping) then None
                          else Some(ReadRaised))
            && Abandoned(d, member, dest) == (if HasNul(parent) then d
                                              else if HasNul(target) then WithDir(d, parent)
                                              else Placed(d, member, dest))
  {
    hide HasNul, Blocked, WithDir, WithFile, Data, EndOf, Target;
    ParentNul(Target(dest, member));
  }

  lemma Overwrite(d: Disk, p: Path, bytes: Bytes)
    ensures WithFile(WithFile(d, p, []), p, bytes) == WithFile(d, p, bytes)
    ensures p in WithFile(d, p, bytes).files && WithFile(d, p, bytes).files[p] == bytes
  {
    assert d.files[p := []][p := bytes] == d.files[p := bytes];
  }

  /** Every cap error is backed by the archive's contents. */
  predicate Justified(error: Error, members: seq<Member>, maxMember: int, maxTotal: int) {
    match error
    case MemberCap => exists m :: m in members && m.kind.File? && (m.size > maxMember || |MemberData(m)| > maxMember)
    case TotalCap => TotalSize(members) > maxTotal
    case UnsupportedType => exists m :: m in members && (m.kind.Device? || m.kind.Fifo? || m.kind.Other?)
    case NoContent => exists m :: m in members && m.kind.File? && m.source.None?
    case LinkMember => exists m :: m in members && (m.kind.Symlink? || m.kind.Hardlink?)
    case _ => error.ExtractionFailed?
  }

  /** What is wrong with the member at which the extraction stopped. */
  predicate Explains(error: Error, member: Member, before: nat, maxMember: int, maxTotal: int) {
    match error
    case MemberCap => member.kind.File? && (member.size > maxMember || |MemberData(member)| > maxMember)
    case TotalCap => before + |MemberData(member)| > maxTotal
    case UnsupportedType => member.kind.Device? || member.kind.Fifo? || member.kind.Other?
    case NoContent => member.kind.File? && member.source.None?
    case LinkMember => member.kind.Symlink? || member.kind.Hardlink?
    case _ => error.ExtractionFailed?
  }

  lemma ExplainsJustified(error: Error, members: seq<Member>, k: nat, maxMember: int, maxTotal: int)
    requires k < |members| && Explains(error, members[k], TotalSize(members[..k]), maxMember, maxTotal)
    ensures Justified(error, members, maxMember, maxTotal) && error != BadCaps
  {
    hide TotalSize, MemberData;
    assert members[k] in members;
    OneMore(Disk(map[], {}), members, k, []);
  }

  /** Files differ only at extracted paths, which lie in dest; directories are only added, in dest. */
  ghost predicate OnlyTouched(was: Disk, now: Disk, extracted: seq<Path>, dest: Path) {
    && (forall p | p in extracted :: Under(dest, p))
    && (forall p | p !in extracted :: (p in now.files <==> p in was.files) && (p in was.files ==> now.files[p] == was.files[p]))
    && (forall p | p in was.dirs :: p in now.dirs)
    && (forall p | p in now.dirs :: p in was.dirs || Under(dest, p))
  }

  /** Making a directory in dest, or dest's parent again, adds nothing outside dest. */
  lemma TouchDir(was: Disk, now: Disk, extracted: seq<Path>, dest: Path, p: Path)
    requires OnlyTouched(was, now, extracted, dest) && IsTree(now) && dest in now.dirs
    requires (Under(dest, p) || p == Parent(dest)) && !Blocked(now, p)
    ensures OnlyTouched(was, WithDir(now, p), extracted, dest) && IsTree(WithDir(now, p))
    ensures dest in WithDir(now, p).dirs && p in WithDir(now, p).dirs
  {
    WithDirKeepsTree(now, p);
    forall q | q in Ancestors(p) ensures q in now.dirs || Under(dest, q) {
      PrefixOrUnder(dest, p, q);
      assert Under(q, dest) ==> q == dest || dest[..|q|] in now.dirs;
    }
  }

  lemma ParentInside(dest: Path, p: Path)
    requires Under(dest, p)
    ensures Under(dest, Parent(p)) || Parent(p) == Parent(dest)
  {
    if |p| > |dest| {
      assert Parent(p)[..|dest|] == p[..|dest|];
    }
  }

  lemma PrefixOrUnder(dest: Path, p: Path, q: Path)
    requires (Under(dest, p) || p == Parent(dest)) && Under(q, p)
    ensures Under(q, dest) || Under(dest, q)
  {
    if p == Parent(dest) {
      assert p[..|q|] == dest[..|q|];
    } else if |q| <= |dest| {
      assert p[..|dest|][..|q|] == p[..|q|];
    } else {
      assert p[..|q|][..|dest|] == p[..|dest|];
    }
  }

  lemma WithDirKeepsTree(d: Disk, p: Path)
    requires IsTree(d) && !Blocked(d, p)
    ensures IsTree(WithDir(d, p))
  {
    var e := WithDir(d, p);
    forall q | Under(q, p) ensures q !in d.files {
      assert p[..|q|] == q;
    }
    forall q: Path, i | q in e.dirs && 0 <= i < |q| ensures q[..i] in e.dirs {
      if q !in d.dirs {
        assert p[..|q|] == q;
        assert p[..i] == q[..i];
      }
    }
  }

  lemma NothingTouched(d: Disk, dest: Path, p: Path)
    requires Under(dest, p)
    ensures OnlyTouched(d, d, [], dest) && OnlyTouched(d, d, [p], dest)
  {
  }

  lemma TouchAgain(was: Disk, mid: Disk, now: Disk, first: seq<Path>, second: seq<Path>, dest: Path)
    requires OnlyTouched(was, mid, first, dest) && OnlyTouched(mid, now, second, dest)
    ensures OnlyTouched(was, now, first + second, dest)
  {
    forall p | p !in first + second ensures p !in first && p !in second {
    }
  }

  lemma TouchFile(was: Disk, now: Disk, extracted: seq<Path>, dest: Path, target: Path, bytes: Bytes)
    requires OnlyTouched(was, now, extracted, dest) && IsTree(now) && dest in now.dirs
    requires target in extracted && Parent(target) in now.dirs && target !in now.dirs
    ensures OnlyTouched(was, WithFile(now, target, bytes), extracted, dest)
    ensures IsTree(WithFile(now, target, bytes)) && dest in WithFile(now, target, bytes).dirs
  {
    forall i | 0 <= i < |target| ensures target[..i] in now.dirs {
      assert Parent(target)[..i] == target[..i];
    }
  }

  lemma ReadOn(answers: seq<Read>, k: nat, done: Bytes)
    requires k < |answers| && answers[k].Chunk? && answers[k].bytes != []
    ensures done + Data(answers[k..]) == done + answers[k].bytes + Data(answers[k + 1..])
    ensures EndOf(answers[k..]) == EndOf(answers[k + 1..])
  {
    assert answers[k..][1..] == answers[k + 1..];
  }

  // ---------------------------------------------------------------------
  // What a successful extraction leaves
  // ---------------------------------------------------------------------

  /** The member, a regular file, goes to p. */
  predicate WritesTo(member: Member, dest: Path, p: Path) {
    member.kind.File? && Target(dest, member) == p
  }

  /** A path holds the bytes of the last member written to it. */
  lemma {:induction false} LastMemberWins(d: Disk, members: seq<Member>, dest: Path, i: nat)
    requires i < |members| && members[i].kind.File?
    requires forall j | i < j < |members| :: !WritesTo(members[j], dest, Target(dest, members[i]))
    ensures var p := Target(dest, members[i]);
            var left := After(d, members, dest);
            p in left.files && left.files[p] == MemberData(members[i])
    decreases |members|
  {
    hide Target, MemberData;
    var n := |members| - 1;
    if i < n {
      var earlier := members[..n];
      assert earlier[i] == members[i];
      assert forall j | i < j < n :: earlier[j] == members[j];
      LastMemberWins(d, earlier, dest, i);
      assert !WritesTo(members[n], dest, Target(dest, members[i]));
    }
  }

  /** Every path that no member is written to keeps what it held. */
  lemma {:induction false} OthersAreKept(d: Disk, members: seq<Member>, dest: Path, p: Path)
    requires forall i | 0 <= i < |members| :: !WritesTo(members[i], dest, p)
    ensures var left := After(d, members, dest);
            (p in left.files <==> p in d.files) && (p in d.files ==> left.files[p] == d.files[p])
    decreases |members|
  {
    hide Target, MemberData;
    if members != [] {
      var n := |members| - 1;
      assert forall i | 0 <= i < n :: members[..n][i] == members[i];
      OthersAreKept(d, members[..n], dest, p);
      assert !WritesTo(members[n], dest, p);
    }
  }

  // ---------------------------------------------------------------------
  // Two promises the code does not keep
  // ---------------------------------------------------------------------

  /** A truncated archive - opened, with an EOFError on reading its headers - leaves the
      destination that the call made. */
  method TruncatedArchiveKeepsDestination(was: Disk, dest: Path, maxMember: int, maxTotal: int)
    returns (outcome: Outcome, now: Disk)
    requires IsTree(was) && dest !in was.dirs && Starts(was, dest, maxMember, maxTotal)
    ensures outcome == Escaped(ArchiveRaised) && dest in now.dirs
  {
    var fs := new FileSystem(was);
    outcome := fs.ExtractSafe(Unreadable(Escaping), dest, maxMember, maxTotal);
    now := fs.disk;
  }

  /** A member whose name holds a NUL passes the validation and leaves it as well. */
  method NulNameKeepsDestination(was: Disk, dest: Path, maxMember: int, maxTotal: int)
    returns (outcome: Outcome, now: Disk)
    requires IsTree(was) && dest !in was.dirs && Starts(was, dest, maxMember, maxTotal)
    ensures outcome == Escaped(NulInName) && dest in now.dirs
  {
    var fs := new FileSystem(was);
    var member := Member("\0", Directory, 0, None);
    NulNameEscapes(WithDir(was, dest), dest, maxMember, maxTotal, member);
    outcome := fs.ExtractSafe(Members([member]), dest, maxMember, maxTotal);
    now := fs.disk;
  }

  lemma NulNameEscapes(d: Disk, dest: Path, maxMember: int, maxTotal: int, member: Member)
    requires member == Member("\0", Directory, 0, None)
    ensures Acceptable(member)
    ensures EscapeAtStop(d, [member], dest, maxMember, maxTotal) == Some(NulInName)
  {
    OnePart('\0');
    var target := Target(dest, member);
    assert target[|dest|] == "\0";
    assert HasNul(target);
    assert !GoesAt(d, [member], 0, dest, maxMember, maxTotal);
    assert [member][..0] == [];
  }

  lemma OnePart(c: char)
    requires c != '/' && c != '.'
    ensures Parts([c]) == [[c]]
  {
    assert [c][1..] == "" && "" + [c] == [c];
    assert Split([c], "") == [[c]];
    assert [[c]][1..] == [] && [c] != "" && [c] != "." by {
      assert [c][0] == c && "."[0] == '.';
    }
    assert Kept([[c]]) == [[c]] + Kept([]);
  }

  lemma BrokenMemberIsRecorded(was: Disk, member: Member)
    requires was == Disk(map[["srv", "a"] := [1]], {[], ["srv"]})
    requires member == Member("a", File, 1, Some([Raised(Caught)]))
    ensures Acceptable(member)
    ensures Recorded(was, [member], ["srv"], 1, 1) == [["srv", "a"]]
    ensures !AllFit(was, [member], ["srv"], 1, 1) && EscapeAtStop(was, [member], ["srv"], 1, 1).None?
  {
    var dest, path, ms := ["srv"], ["srv", "a"], [member];
    OnePart('a');
    assert Target(dest, member) == path && Parent(path) == dest;
    assert !HasNul(path) && !HasNul(dest);
    assert !Blocked(was, dest) by {
      assert forall i | 0 <= i <= |dest| :: |dest[..i]| < |path|;
    }
    assert Reaches(was, member, dest, 1);
    assert EndOf([Raised(Caught)]) == Some(Caught);
    assert ms[..0] == [] && After(was, ms[..0], dest) == was;
    assert !FitsAt(was, ms, 0, dest, 1);
    assert !GoesAt(was, ms, 0, dest, 1, 1);
    assert Targets(ms, dest, 1) == [path];
  }

  /** A directory the caller supplied does not always keep its content: a member "a" whose
      reading fails takes the file of that name with it. */
  method OverwrittenFileIsLost() returns (outcome: Outcome, was: Disk, now: Disk)
    ensures IsTree(was) && ["srv"] in was.dirs && ["srv", "a"] in was.files
    ensures outcome.Failed? && ["srv", "a"] !in now.files
  {
    var dest, path := ["srv"], ["srv", "a"];
    was := Disk(map[path := [1]], {[], dest});
    assert path[..0] == [] && path[..1] == dest && dest[..0] == [];
    var fs := new FileSystem(was);
    var member := Member("a", File, 1, Some([Raised(Caught)]));
    BrokenMemberIsRecorded(was, member);
    assert WithDir(was, dest) == was;
    outcome := fs.ExtractSafe(Members([member]), dest, 1, 1);
    now := fs.disk;
  }
}
