/**
 Parsers for NUL-separated Git output: changed paths from status entries in
 porcelain format version 2, and worktree records. Each is an inverse of the
 printer of its format.
 */
module GitPorcelain {
  import opened Wrappers

  const NUL: char := '\0'

  datatype GitError =
    | MalformedStatus
    | UnresolvedConflicts
    | SubmoduleChanges
    | MalformedRename
    | UnknownRecord
    | MalformedWorktree

  // ---------------------------------------------------------------- splitting text

  /** The pieces between NUL characters; there is always at least one. */
  function Split(s: string): (pieces: seq<string>)
    ensures |pieces| >= 1
  {
    if s == "" then [""]
    else
      var rest := Split(s[1..]);
      if s[0] == NUL then [""] + rest else [[s[0]] + rest[0]] + rest[1..]
  }

  /** The position of the first space at or after `from`, or the length of the text. */
  function SpaceFrom(s: string, from: nat): (i: nat)
    requires from <= |s|
    ensures from <= i <= |s|
    ensures forall k :: from <= k < i ==> s[k] != ' '
    ensures i < |s| ==> s[i] == ' '
    decreases |s| - from
  {
    if from == |s| || s[from] == ' ' then from else SpaceFrom(s, from + 1)
  }

  /** What follows the first n spaces. */
  function AfterSpaces(s: string, n: nat): Result<string, GitError> {
    if n == 0 then Ok(s)
    else
      var i := SpaceFrom(s, 0);
      if i == |s| then Err(MalformedStatus) else AfterSpaces(s[i + 1..], n - 1)
  }

  /** The k-th of the fields that spaces separate. */
  function Field(s: string, k: nat): Option<string> {
    var i := SpaceFrom(s, 0);
    if k == 0 then Some(s[..i]) else if i == |s| then None else Field(s[i + 1..], k - 1)
  }

  lemma {:induction false} SpaceFromSlice(s: string, from: nat)
    requires from <= |s|
    ensures SpaceFrom(s, from) == from + SpaceFrom(s[from..], 0)
  {
    FirstSpace(s[from..], SpaceFrom(s, from) - from);
  }

  lemma FirstSpace(s: string, i: nat)
    requires i <= |s| && (forall k :: 0 <= k < i ==> s[k] != ' ') && (i < |s| ==> s[i] == ' ')
    ensures SpaceFrom(s, 0) == i
  {
  }

  method FieldAfterSpaces(value: string, spaceCount: nat) returns (r: Result<string, GitError>)
    ensures r == AfterSpaces(value, spaceCount)
  {
    var offset := -1;
    for index := 0 to spaceCount
      invariant -1 <= offset < |value|
      invariant AfterSpaces(value, spaceCount) == AfterSpaces(value[offset + 1..], spaceCount - index)
    {
      SpaceFromSlice(value, offset + 1);
      var next := SpaceFrom(value, offset + 1);
      if next == |value| {
        return Err(MalformedStatus);
      }
      assert value[offset + 1..][next - offset - 1 + 1..] == value[next + 1..];
      offset := next;
    }
    return Ok(value[offset + 1..]);
  }

  // ---------------------------------------------------------------- changed paths

  predicate Tagged(record: string, tag: char) {
    |record| >= 2 && record[0] == tag && record[1] == ' '
  }

  predicate NamesSubmodule(record: string) {
    var submodule := Field(record, 2);
    submodule.Some? && submodule.value != "" && submodule.value[0] == 'S'
  }

  /** The paths of the remaining records, added to those already found. */
  function ChangedPaths(records: seq<string>, includeIgnored: bool, found: set<string>): Result<set<string>, GitError>
    decreases |records|
  {
    if records == [] then Ok(found)
    else
      var record, rest := records[0], records[1..];
      if record == "" then ChangedPaths(rest, includeIgnored, found)
      else if Tagged(record, 'u') then Err(UnresolvedConflicts)
      else if Tagged(record, '?') then ChangedPaths(rest, includeIgnored, found + {record[2..]})
      else if Tagged(record, '!') then
        ChangedPaths(rest, includeIgnored, if includeIgnored then found + {record[2..]} else found)
      else if Tagged(record, '1') then
        if NamesSubmodule(record) then Err(SubmoduleChanges)
        else
          var path :- AfterSpaces(record, 8);
          ChangedPaths(rest, includeIgnored, found + {path})
      else if Tagged(record, '2') then
        if NamesSubmodule(record) then Err(SubmoduleChanges)
        else
          var path :- AfterSpaces(record, 9);
          if rest == [] || rest[0] == "" then Err(MalformedRename)
          else ChangedPaths(rest[1..], includeIgnored, found + {path, rest[0]})
      else Err(UnknownRecord)
  }

  method ParseChangedPaths(serialized: string, includeIgnored: bool) returns (r: Result<set<string>, GitError>)
    ensures r == if serialized == "" then Ok({}) else ChangedPaths(Split(serialized), includeIgnored, {})
  {
    if serialized == "" {
      return Ok({});
    }
    var paths: set<string> := {};
    var records := Split(serialized);
    var index := 0;
    while index < |records|
      invariant 0 <= index <= |records|
      invariant ChangedPaths(records, includeIgnored, {}) == ChangedPaths(records[index..], includeIgnored, paths)
    {
      var record := records[index];
      assert records[index..][1..] == records[index + 1..];
      index := index + 1;
      if record == "" {
        continue;
      }
      if Tagged(record, 'u') {
        return Err(UnresolvedConflicts);
      }
      if Tagged(record, '?') {
        paths := paths + {record[2..]};
        continue;
      }
      if Tagged(record, '!') {
        if includeIgnored {
          paths := paths + {record[2..]};
        }
        continue;
      }
      if Tagged(record, '1') || Tagged(record, '2') {
        if NamesSubmodule(record) {
          return Err(SubmoduleChanges);
        }
        var path :- FieldAfterSpaces(record, if Tagged(record, '2') then 9 else 8);
        if Tagged(record, '2') {
          if index == |records| || records[index] == "" {
            return Err(MalformedRename);
          }
          assert records[index..][1..] == records[index + 1..];
          paths := paths + {path, records[index]};
          index := index + 1;
        } else {
          paths := paths + {path};
        }
        continue;
      }
      return Err(UnknownRecord);
    }
    return Ok(paths);
  }

  // ---------------------------------------------------------------- the status format

  /** An entry of the format; `fields` are those between the tag and the path. */
  datatype StatusEntry =
    | Ordinary(fields: seq<string>, path: string)
    | Renamed(fields: seq<string>, path: string, original: string)
    | Unmerged(text: string)
    | Untracked(path: string)
    | IgnoredPath(path: string)

  predicate IsPath(s: string) {
    s != "" && NUL !in s
  }

  predicate AreFields(fields: seq<string>) {
    forall f :: f in fields ==> ' ' !in f && NUL !in f
  }

  predicate IsEntry(entry: StatusEntry) {
    match entry
    case Ordinary(fields, path) => |fields| == 7 && AreFields(fields) && IsPath(path)
    case Renamed(fields, path, original) => |fields| == 8 && AreFields(fields) && IsPath(path) && IsPath(original)
    case Unmerged(text) => NUL !in text
    case Untracked(path) => IsPath(path)
    case IgnoredPath(path) => IsPath(path)
  }

  function Join(fields: seq<string>, path: string): string {
    if fields == [] then path else fields[0] + ([' '] + Join(fields[1..], path))
  }

  /** The records an entry is printed as. */
  function Records(entry: StatusEntry): seq<string> {
    match entry
    case Ordinary(fields, path) => [Join(["1"] + fields, path)]
    case Renamed(fields, path, original) => [Join(["2"] + fields, path), original]
    case Unmerged(text) => ["u " + text]
    case Untracked(path) => ["? " + path]
    case IgnoredPath(path) => ["! " + path]
  }

  /** Every record is followed by a NUL. */
  function Terminated(records: seq<string>): string {
    if records == [] then "" else records[0] + ([NUL] + Terminated(records[1..]))
  }

  function AllRecords(entries: seq<StatusEntry>): seq<string> {
    if entries == [] then [] else Records(entries[0]) + AllRecords(entries[1..])
  }

  function Printed(entries: seq<StatusEntry>): string {
    Terminated(AllRecords(entries))
  }

  predicate ChangesSubmodule(entry: StatusEntry)
    requires IsEntry(entry)
  {
    (entry.Ordinary? || entry.Renamed?) && entry.fields[1] != "" && entry.fields[1][0] == 'S'
  }

  /** The paths an entry names: both sides of a rename, and ignored paths only on request. */
  function PathsOf(entry: StatusEntry, includeIgnored: bool): set<string> {
    match entry
    case Ordinary(_, path) => {path}
    case Renamed(_, path, original) => {path, original}
    case Unmerged(_) => {}
    case Untracked(path) => {path}
    case IgnoredPath(path) => if includeIgnored then {path} else {}
  }

  /** What the entries mean: the first conflict or submodule change, or else every path they name. */
  function Meaning(entries: seq<StatusEntry>, includeIgnored: bool, found: set<string>): Result<set<string>, GitError>
    requires forall entry :: entry in entries ==> IsEntry(entry)
    decreases |entries|
  {
    if entries == [] then Ok(found)
    else if entries[0].Unmerged? then Err(UnresolvedConflicts)
    else if ChangesSubmodule(entries[0]) then Err(SubmoduleChanges)
    else Meaning(entries[1..], includeIgnored, found + PathsOf(entries[0], includeIgnored))
  }

  // ---------------------------------------------------------------- parsing inverts printing

  lemma {:induction false} SplitPiece(piece: string, rest: string)
    requires NUL !in piece
    ensures Split(piece + ([NUL] + rest)) == [piece] + Split(rest)
  {
    var s := piece + ([NUL] + rest);
    if piece == "" {
      assert s == [NUL] + rest && s[1..] == rest;
    } else {
      assert s[1..] == piece[1..] + ([NUL] + rest);
      SplitPiece(piece[1..], rest);
      assert [piece[0]] + piece[1..] == piece;
    }
  }

  lemma {:induction false} SplitTerminated(records: seq<string>)
    requires forall record :: record in records ==> NUL !in record
    ensures Split(Terminated(records)) == records + [""]
  {
    if records != [] {
      SplitPiece(records[0], Terminated(records[1..]));
      SplitTerminated(records[1..]);
      assert records == [records[0]] + records[1..];
    }
  }

  lemma FieldThenRest(field: string, rest: string)
    requires ' ' !in field
    ensures var s := field + ([' '] + rest);
      SpaceFrom(s, 0) == |field| && s[..|field|] == field && s[|field| + 1..] == rest
  {
    FirstSpace(field + ([' '] + rest), |field|);
  }

  lemma {:induction false} JoinReads(fields: seq<string>, path: string)
    requires AreFields(fields)
    ensures AfterSpaces(Join(fields, path), |fields|) == Ok(path)
    ensures forall k :: 0 <= k < |fields| ==> Field(Join(fields, path), k) == Some(fields[k])
  {
    if fields != [] {
      FieldThenRest(fields[0], Join(fields[1..], path));
      JoinReads(fields[1..], path);
    }
  }

  lemma {:induction false} JoinHasNoNul(fields: seq<string>, path: string)
    requires AreFields(fields) && NUL !in path
    ensures NUL !in Join(fields, path)
  {
    if fields != [] {
      JoinHasNoNul(fields[1..], path);
    }
  }

  lemma RecordsHaveNoNul(entry: StatusEntry)
    requires IsEntry(entry)
    ensures forall record :: record in Records(entry) ==> NUL !in record
  {
    if entry.Ordinary? {
      JoinHasNoNul(["1"] + entry.fields, entry.path);
    } else if entry.Renamed? {
      JoinHasNoNul(["2"] + entry.fields, entry.path);
    }
  }

  /** A tagged record of joined fields, as the parser sees it. */
  lemma TaggedRecord(tag: char, fields: seq<string>, path: string)
    requires tag in {'1', '2'} && AreFields(fields) && |fields| >= 2
    ensures var record := Join([[tag]] + fields, path);
      && Tagged(record, tag)
      && AfterSpaces(record, |fields| + 1) == Ok(path)
      && (NamesSubmodule(record) <==> fields[1] != "" && fields[1][0] == 'S')
  {
    JoinReads([[tag]] + fields, path);
    assert ([[tag]] + fields)[1..] == fields;
  }

  /** The parser reads one entry's records and goes on with what follows them. */
  lemma EntryParses(entry: StatusEntry, rest: seq<string>, includeIgnored: bool, found: set<string>)
    requires IsEntry(entry)
    ensures ChangedPaths(Records(entry) + rest, includeIgnored, found) ==
            if entry.Unmerged? then Err(UnresolvedConflicts)
            else if ChangesSubmodule(entry) then Err(SubmoduleChanges)
            else ChangedPaths(rest, includeIgnored, found + PathsOf(entry, includeIgnored))
  {
    var records := Records(entry) + rest;
    assert records[1..] == Records(entry)[1..] + rest;
    match entry
    case Ordinary(fields, path) => TaggedRecord('1', fields, path);
    case Renamed(fields, path, original) =>
      TaggedRecord('2', fields, path);
      assert records[1..][0] == original && records[1..][1..] == rest;
    case Unmerged(_) =>
    case Untracked(path) => assert ("? " + path)[2..] == path;
    case IgnoredPath(path) =>
      assert ("! " + path)[2..] == path;
      assert found + {} == found;
  }

  lemma {:induction false} EntriesParse(entries: seq<StatusEntry>, includeIgnored: bool, found: set<string>)
    requires forall entry :: entry in entries ==> IsEntry(entry)
    ensures ChangedPaths(AllRecords(entries) + [""], includeIgnored, found) == Meaning(entries, includeIgnored, found)
    decreases |entries|
  {
    if entries == [] {
      assert AllRecords(entries) + [""] == [""];
      assert [""][1..] == [];
    } else {
      EntryParses(entries[0], AllRecords(entries[1..]) + [""], includeIgnored, found);
      assert AllRecords(entries) + [""] == Records(entries[0]) + (AllRecords(entries[1..]) + [""]);
      if !entries[0].Unmerged? && !ChangesSubmodule(entries[0]) {
        EntriesParse(entries[1..], includeIgnored, found + PathsOf(entries[0], includeIgnored));
      }
    }
  }

  lemma {:induction false} AllRecordsHaveNoNul(entries: seq<StatusEntry>)
    requires forall entry :: entry in entries ==> IsEntry(entry)
    ensures forall record :: record in AllRecords(entries) ==> NUL !in record
  {
    if entries != [] {
      RecordsHaveNoNul(entries[0]);
      AllRecordsHaveNoNul(entries[1..]);
    }
  }

  /**
   Parsing printed status entries gives what they mean: the paths of all of them
   with both sides of every rename, unless one reports a conflict or a submodule.
   An original path is never read as a record, whatever it looks like.
   */
  lemma StatusRoundTrip(entries: seq<StatusEntry>, includeIgnored: bool)
    requires forall entry :: entry in entries ==> IsEntry(entry)
    ensures ChangedPaths(Split(Printed(entries)), includeIgnored, {}) == Meaning(entries, includeIgnored, {})
  {
    AllRecordsHaveNoNul(entries);
    SplitTerminated(AllRecords(entries));
    EntriesParse(entries, includeIgnored, {});
  }

  // ---------------------------------------------------------------- worktree records

  datatype Worktree = Worktree(
    path: string, head: Option<string>, branch: Option<string>,
    bare: bool, detached: bool, prunable: bool, locked: bool)

  const BRANCH_PREFIX := "refs/heads/"

  function NameOf(field: string): string {
    field[..SpaceFrom(field, 0)]
  }

  function ValueOf(field: string): string {
    var separator := SpaceFrom(field, 0);
    if separator == |field| then "" else field[separator + 1..]
  }

  function BranchOf(value: string): string {
    if BRANCH_PREFIX <= value then value[|BRANCH_PREFIX|..] else value
  }

  /** What one attribute says about the worktree it belongs to. */
  function WithAttribute(current: Worktree, field: string): Worktree {
    var name, value := NameOf(field), ValueOf(field);
    if name == "HEAD" then current.(head := Some(value))
    else if name == "branch" then current.(branch := Some(BranchOf(value)))
    else if name == "bare" then current.(bare := true)
    else if name == "detached" then current.(detached := true)
    else if name == "prunable" then current.(prunable := true)
    else if name == "locked" then current.(locked := true)
    else current
  }

  function NewWorktree(path: string): Worktree {
    Worktree(path, None, None, false, false, false, false)
  }

  function Finished(records: seq<Worktree>, current: Option<Worktree>): seq<Worktree> {
    if current.Some? then records + [current.value] else records
  }

  /** The records of the remaining fields, after those already finished and the one being read. */
  function Worktrees(fields: seq<string>, current: Option<Worktree>, records: seq<Worktree>)
    : Result<seq<Worktree>, GitError>
    decreases |fields|
  {
    if fields == [] then Ok(Finished(records, current))
    else
      var field, rest := fields[0], fields[1..];
      if field == "" then Worktrees(rest, None, Finished(records, current))
      else if NameOf(field) == "worktree" then
        Worktrees(rest, Some(NewWorktree(ValueOf(field))), Finished(records, current))
      else if current.None? then Err(MalformedWorktree)
      else Worktrees(rest, Some(WithAttribute(current.value, field)), records)
  }

  method ParseWorktrees(serialized: string) returns (r: Result<seq<Worktree>, GitError>)
    ensures r == if serialized == "" then Ok([]) else Worktrees(Split(serialized), None, [])
  {
    if serialized == "" {
      return Ok([]);
    }
    var records: seq<Worktree> := [];
    var current: Option<Worktree> := None;
    var fields := Split(serialized);
    for i := 0 to |fields|
      invariant Worktrees(fields, None, []) == Worktrees(fields[i..], current, records)
    {
      var field := fields[i];
      assert fields[i..][1..] == fields[i + 1..];
      if field == "" {
        records := Finished(records, current);
        current := None;
      } else if NameOf(field) == "worktree" {
        records := Finished(records, current);
        current := Some(NewWorktree(ValueOf(field)));
      } else if current.None? {
        return Err(MalformedWorktree);
      } else {
        current := Some(WithAttribute(current.value, field));
      }
    }
    return Ok(Finished(records, current));
  }

  /** A worktree as it is printed; the reasons for locking and pruning are printed but not kept. */
  datatype PrintedWorktree = PrintedWorktree(worktree: Worktree, lockReason: string, pruneReason: string)

  function Attribute(name: string, value: string): string {
    name + ([' '] + value)
  }

  function Flag(name: string, reason: string): string {
    if reason == "" then name else Attribute(name, reason)
  }

  function Optional(present: bool, field: string): seq<string> {
    if present then [field] else []
  }

  function Attributes(p: PrintedWorktree): seq<string> {
    var w := p.worktree;
    (if w.head.Some? then [Attribute("HEAD", w.head.value)] else [])
    + (if w.branch.Some? then [Attribute("branch", BRANCH_PREFIX + w.branch.value)] else [])
    + Optional(w.bare, "bare") + Optional(w.detached, "detached")
    + Optional(w.locked, Flag("locked", p.lockReason)) + Optional(w.prunable, Flag("prunable", p.pruneReason))
  }

  /** The fields of one worktree record; the empty one ends it. */
  function WorktreeFields(p: PrintedWorktree): seq<string> {
    [Attribute("worktree", p.worktree.path)] + Attributes(p) + [""]
  }

  function AllWorktreeFields(printed: seq<PrintedWorktree>): seq<string> {
    if printed == [] then [] else WorktreeFields(printed[0]) + AllWorktreeFields(printed[1..])
  }

  function PlainWorktrees(printed: seq<PrintedWorktree>): seq<Worktree>
  {
    seq(|printed|, i requires 0 <= i < |printed| => printed[i].worktree)
  }

  predicate IsPrintable(p: PrintedWorktree) {
    && NUL !in p.worktree.path
    && (p.worktree.head.Some? ==> NUL !in p.worktree.head.value)
    && (p.worktree.branch.Some? ==> NUL !in p.worktree.branch.value)
    && NUL !in p.lockReason && NUL !in p.pruneReason
  }

  lemma AttributeReads(name: string, value: string)
    requires ' ' !in name
    ensures NameOf(Attribute(name, value)) == name && ValueOf(Attribute(name, value)) == value
  {
    FieldThenRest(name, value);
  }

  lemma FlagReads(name: string, reason: string)
    requires ' ' !in name
    ensures NameOf(Flag(name, reason)) == name
  {
    if reason == "" {
      FirstSpace(name, |name|);
    } else {
      AttributeReads(name, reason);
    }
  }

  /** Reading the attributes a record may have, one after another. */
  function WithAttributes(current: Worktree, fields: seq<string>): Worktree
    decreases |fields|
  {
    if fields == [] then current else WithAttributes(WithAttribute(current, fields[0]), fields[1..])
  }

  predicate IsAttribute(field: string) {
    field != "" && NameOf(field) != "worktree"
  }

  lemma {:induction false} AttributesParse(fields: seq<string>, current: Worktree, rest: seq<string>,
                                           records: seq<Worktree>)
    requires forall f :: f in fields ==> IsAttribute(f)
    ensures Worktrees(fields + rest, Some(current), records)
      == Worktrees(rest, Some(WithAttributes(current, fields)), records)
    decreases |fields|
  {
    if fields == [] {
      assert fields + rest == rest;
    } else {
      assert IsAttribute(fields[0]) && (fields + rest)[1..] == fields[1..] + rest;
      AttributesParse(fields[1..], WithAttribute(current, fields[0]), rest, records);
    }
  }

  lemma {:induction false} WithAttributesConcat(current: Worktree, a: seq<string>, b: seq<string>)
    ensures WithAttributes(current, a + b) == WithAttributes(WithAttributes(current, a), b)
    decreases |a|
  {
    if a == [] {
      assert a + b == b;
    } else {
      assert (a + b)[1..] == a[1..] + b;
      WithAttributesConcat(WithAttribute(current, a[0]), a[1..], b);
    }
  }

  /** Attribute fields that turn one worktree into another. */
  ghost predicate Sets(fields: seq<string>, before: Worktree, after: Worktree) {
    (forall f :: f in fields ==> IsAttribute(f)) && WithAttributes(before, fields) == after
  }

  lemma SetsOne(field: string, before: Worktree)
    requires IsAttribute(field)
    ensures Sets([field], before, WithAttribute(before, field))
  {
    assert [field][1..] == [];
  }

  lemma SetsBoth(a: seq<string>, b: seq<string>, before: Worktree, middle: Worktree, after: Worktree)
    requires Sets(a, before, middle) && Sets(b, middle, after)
    ensures Sets(a + b, before, after)
  {
    WithAttributesConcat(before, a, b);
  }

  lemma HeadReads(w: Worktree, before: Worktree)
    requires before.head.None?
    ensures Sets(if w.head.Some? then [Attribute("HEAD", w.head.value)] else [], before, before.(head := w.head))
  {
    if w.head.Some? {
      AttributeReads("HEAD", w.head.value);
      SetsOne(Attribute("HEAD", w.head.value), before);
    }
  }

  lemma BranchReads(w: Worktree, before: Worktree)
    requires before.branch.None?
    ensures Sets(if w.branch.Some? then [Attribute("branch", BRANCH_PREFIX + w.branch.value)] else [],
                 before, before.(branch := w.branch))
  {
    if w.branch.Some? {
      var value := BRANCH_PREFIX + w.branch.value;
      AttributeReads("branch", value);
      assert value[|BRANCH_PREFIX|..] == w.branch.value;
      SetsOne(Attribute("branch", value), before);
    }
  }

  lemma FlagSets(present: bool, name: string, reason: string, before: Worktree, after: Worktree)
    requires name in {"bare", "detached", "locked", "prunable"}
    requires after == if !present then before
                      else if name == "bare" then before.(bare := true)
                      else if name == "detached" then before.(detached := true)
                      else if name == "locked" then before.(locked := true)
                      else before.(prunable := true)
    ensures Sets(Optional(present, Flag(name, reason)), before, after)
  {
    FlagReads(name, reason);
    if present {
      SetsOne(Flag(name, reason), before);
    }
  }

  /** The attributes of a printed worktree together say all there is to say of it. */
  lemma AttributesRead(p: PrintedWorktree)
    ensures Sets(Attributes(p), NewWorktree(p.worktree.path), p.worktree)
  {
    var w := p.worktree;
    var start := NewWorktree(w.path);
    var head := if w.head.Some? then [Attribute("HEAD", w.head.value)] else [];
    var branch := if w.branch.Some? then [Attribute("branch", BRANCH_PREFIX + w.branch.value)] else [];
    var withHead := start.(head := w.head);
    var withBranch := withHead.(branch := w.branch);
    var withBare := withBranch.(bare := w.bare);
    var withDetached := withBare.(detached := w.detached);
    var withLocked := withDetached.(locked := w.locked);
    HeadReads(w, start);
    BranchReads(w, withHead);
    FlagSets(w.bare, "bare", "", withBranch, withBare);
    FlagSets(w.detached, "detached", "", withBare, withDetached);
    FlagSets(w.locked, "locked", p.lockReason, withDetached, withLocked);
    FlagSets(w.prunable, "prunable", p.pruneReason, withLocked, w);
    SetsBoth(head, branch, start, withHead, withBranch);
    SetsBoth(head + branch, Optional(w.bare, "bare"), start, withBranch, withBare);
    SetsBoth(head + branch + Optional(w.bare, "bare"), Optional(w.detached, "detached"), start, withBare, withDetached);
    SetsBoth(head + branch + Optional(w.bare, "bare") + Optional(w.detached, "detached"),
             Optional(w.locked, Flag("locked", p.lockReason)), start, withDetached, withLocked);
    SetsBoth(head + branch + Optional(w.bare, "bare") + Optional(w.detached, "detached")
             + Optional(w.locked, Flag("locked", p.lockReason)),
             Optional(w.prunable, Flag("prunable", p.pruneReason)), start, withLocked, w);
  }

  lemma WorktreeParses(p: PrintedWorktree, rest: seq<string>, records: seq<Worktree>)
    ensures Worktrees(WorktreeFields(p) + rest, None, records) == Worktrees(rest, None, records + [p.worktree])
  {
    var first := Attribute("worktree", p.worktree.path);
    AttributeReads("worktree", p.worktree.path);
    AttributesRead(p);
    assert WorktreeFields(p) + rest == [first] + (Attributes(p) + ([""] + rest));
    AttributesParse(Attributes(p), NewWorktree(p.worktree.path), [""] + rest, records);
    assert ([""] + rest)[1..] == rest;
  }

  lemma FirstPlain(printed: seq<PrintedWorktree>, records: seq<Worktree>)
    requires printed != []
    ensures (records + [printed[0].worktree]) + PlainWorktrees(printed[1..]) == records + PlainWorktrees(printed)
  {
  }

  lemma {:induction false} AllWorktreesParse(printed: seq<PrintedWorktree>, records: seq<Worktree>)
    ensures Worktrees(AllWorktreeFields(printed) + [""], None, records) == Ok(records + PlainWorktrees(printed))
    decreases |printed|
  {
    if printed == [] {
      NothingToParse(records);
    } else {
      var fields, rest := WorktreeFields(printed[0]), AllWorktreeFields(printed[1..]);
      assert fields + rest + [""] == fields + (rest + [""]);
      WorktreeParses(printed[0], AllWorktreeFields(printed[1..]) + [""], records);
      AllWorktreesParse(printed[1..], records + [printed[0].worktree]);
      FirstPlain(printed, records);
    }
  }

  lemma NothingToParse(records: seq<Worktree>)
    ensures Worktrees([] + [""], None, records) == Ok(records) && records + PlainWorktrees([]) == records
  {
    assert [] + [""] == [""] && [""][1..] == [];
  }

  ghost predicate NoNulIn(fields: seq<string>) {
    forall f :: f in fields ==> NUL !in f
  }

  lemma AttributeHasNoNul(name: string, value: string)
    requires NUL !in name && NUL !in value
    ensures NUL !in Attribute(name, value) && NUL !in Flag(name, value)
  {
  }

  lemma FieldsHaveNoNul(p: PrintedWorktree)
    requires IsPrintable(p)
    ensures NoNulIn(WorktreeFields(p))
  {
    var w := p.worktree;
    AttributeHasNoNul("worktree", w.path);
    if w.head.Some? {
      AttributeHasNoNul("HEAD", w.head.value);
    }
    if w.branch.Some? {
      assert NUL !in BRANCH_PREFIX + w.branch.value;
      AttributeHasNoNul("branch", BRANCH_PREFIX + w.branch.value);
    }
    AttributeHasNoNul("locked", p.lockReason);
    AttributeHasNoNul("prunable", p.pruneReason);
  }

  lemma {:induction false} WorktreeFieldsHaveNoNul(printed: seq<PrintedWorktree>)
    requires forall p :: p in printed ==> IsPrintable(p)
    ensures forall f :: f in AllWorktreeFields(printed) ==> NUL !in f
  {
    if printed != [] {
      FieldsHaveNoNul(printed[0]);
      WorktreeFieldsHaveNoNul(printed[1..]);
    }
  }

  /** Printed worktree records parse back to the same worktrees, in the same order. */
  lemma WorktreeRoundTrip(printed: seq<PrintedWorktree>)
    requires forall p :: p in printed ==> IsPrintable(p)
    ensures Worktrees(Split(Terminated(AllWorktreeFields(printed))), None, []) == Ok(PlainWorktrees(printed))
  {
    WorktreeFieldsHaveNoNul(printed);
    SplitTerminated(AllWorktreeFields(printed));
    AllWorktreesParse(printed, []);
    assert [] + PlainWorktrees(printed) == PlainWorktrees(printed);
  }
}
