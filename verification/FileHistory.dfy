/**
  * A stored file, its version history, and patching. Reading translates line ends, so what is
  * snapshotted and patched is the text as read, not the bytes on disk.
  */
module FileHistory {
  import opened Basics
  import opened TextWords

  // ---- reading with newline translation ----

  /** The text from `i` on with CR LF and CR turned into LF. */
  function Translated(s: string, i: nat): string
    requires i <= |s|
    decreases |s| - i
  {
    if i == |s| then ""
    else if s[i] == '\r' then "\n" + Translated(s, if i + 1 < |s| && s[i + 1] == '\n' then i + 2 else i + 1)
    else [s[i]] + Translated(s, i + 1)
  }

  function TextOf(disk: string): string
  {
    Translated(disk, 0)
  }

  predicate NoReturns(s: string)
  {
    forall i | 0 <= i < |s| :: s[i] != '\r'
  }

  lemma {:induction false} TranslatedHasNoReturns(s: string, i: nat)
    requires i <= |s|
    ensures NoReturns(Translated(s, i))
    decreases |s| - i
  {
    if i < |s| {
      TranslatedHasNoReturns(s, if s[i] == '\r' && i + 1 < |s| && s[i + 1] == '\n' then i + 2 else i + 1);
    }
  }

  lemma {:induction false} TranslatedKeeps(s: string, i: nat)
    requires i <= |s| && forall k | i <= k < |s| :: s[k] != '\r'
    ensures Translated(s, i) == s[i..]
    decreases |s| - i
  {
    if i < |s| {
      TranslatedKeeps(s, i + 1);
    }
  }

  /** Text written back reads as itself; only bytes without a carriage return are what they read as. */
  lemma ReadsBack(disk: string)
    ensures TextOf(TextOf(disk)) == TextOf(disk)
    ensures TextOf(disk) == disk <==> NoReturns(disk)
  {
    TranslatedHasNoReturns(disk, 0);
    TranslatedKeeps(TextOf(disk), 0);
    if NoReturns(disk) {
      TranslatedKeeps(disk, 0);
    }
  }

  // ---- finding and replacing ----

  predicate OccursAt(text: string, part: string, i: nat)
  {
    i + |part| <= |text| && text[i..i + |part|] == part
  }

  /** The first place from `i` on where `part` occurs. */
  function Find(text: string, part: string, i: nat): (r: Option<nat>)
    ensures r.Some? ==> i <= r.value && OccursAt(text, part, r.value)
    ensures forall k: nat | i <= k && (r.Some? ==> k < r.value) :: !OccursAt(text, part, k)
    decreases |text| + 1 - i
  {
    if i > |text| then None
    else if OccursAt(text, part, i) then Some(i)
    else Find(text, part, i + 1)
  }

  predicate Occurs(text: string, part: string)
  {
    Find(text, part, 0).Some?
  }

  /** CR LF turned into LF, lone carriage returns kept. */
  function Normalized(s: string, i: nat): string
    requires i <= |s|
    decreases |s| - i
  {
    if i == |s| then ""
    else if s[i] == '\r' && i + 1 < |s| && s[i + 1] == '\n' then "\n" + Normalized(s, i + 2)
    else [s[i]] + Normalized(s, i + 1)
  }

  lemma {:induction false} NormalizedKeeps(s: string, i: nat)
    requires i <= |s| && forall k | i <= k < |s| :: s[k] != '\r'
    ensures Normalized(s, i) == s[i..]
    decreases |s| - i
  {
    if i < |s| {
      NormalizedKeeps(s, i + 1);
    }
  }

  /** `part` at `i` replaced. */
  function Spliced(text: string, i: nat, length: nat, replacement: string): string
    requires i + length <= |text|
  {
    text[..i] + replacement + text[i + length..]
  }

  /** What a patch looks for: the text as given, else with normal line ends, else without its blank edges. */
  function Target(text: string, wanted: string): Option<string>
  {
    if Occurs(text, wanted) then Some(wanted)
    else if Occurs(text, Normalized(wanted, 0)) then Some(Normalized(wanted, 0))
    else if Strip(wanted) != "" && Occurs(text, Strip(wanted)) then Some(Strip(wanted))
    else None
  }

  /** The replacement itself; its second case measures in the normalized text and cuts in the original one. */
  function FuzzyReplace(text: string, wanted: string, replacement: string): Option<string>
  {
    var exact := Find(text, wanted, 0);
    if exact.Some? then Some(Spliced(text, exact.value, |wanted|, replacement))
    else
      var n := Normalized(wanted, 0);
      var normal := Find(Normalized(text, 0), n, 0);
      if normal.Some? then
        Some(text[..Least(normal.value, |text|)] + replacement + text[Least(normal.value + |n|, |text|)..])
      else
        var s := Strip(wanted);
        var stripped := if s != "" then Find(text, s, 0) else None;
        if stripped.Some? then Some(Spliced(text, stripped.value, |s|, replacement)) else None
  }

  lemma SplicedBack(text: string, part: string, at: nat)
    requires OccursAt(text, part, at)
    ensures Spliced(text, at, |part|, part) == text
  {
    assert text == text[..at] + text[at..at + |part|] + text[at + |part|..];
  }

  /** On text as read, a patch replaces the first occurrence of its target and nothing else, or there is no target. */
  lemma PatchReplacesOne(disk: string, wanted: string, replacement: string)
    ensures var text := TextOf(disk);
      match Target(text, wanted)
      case None => FuzzyReplace(text, wanted, replacement) == None
      case Some(part) =>
        var at := Find(text, part, 0).value;
        && FuzzyReplace(text, wanted, replacement) == Some(Spliced(text, at, |part|, replacement))
        && text == Spliced(text, at, |part|, part)
  {
    var text := TextOf(disk);
    TranslatedHasNoReturns(disk, 0);
    NormalizedKeeps(text, 0);
    assert Normalized(text, 0) == text;
    if Target(text, wanted).Some? {
      var part := Target(text, wanted).value;
      SplicedBack(text, part, Find(text, part, 0).value);
    }
  }

  // ---- the same replacement on raw text ----

  predicate PairAt(s: string, k: nat)
  {
    k + 1 < |s| && s[k] == '\r' && s[k + 1] == '\n'
  }

  /** Where in the raw text the normalized text from `i` on has been read for `p` characters. */
  function RawAt(s: string, i: nat, p: nat): (r: nat)
    requires i <= |s| && p <= |Normalized(s, i)|
    ensures i <= r <= |s|
    decreases p
  {
    if p == 0 then i else RawAt(s, if PairAt(s, i) then i + 2 else i + 1, p - 1)
  }

  /** What is left to read there is the rest of the normalized text. */
  lemma {:induction false} RawAtMeans(s: string, i: nat, p: nat)
    requires i <= |s| && p <= |Normalized(s, i)|
    ensures Normalized(s, RawAt(s, i, p)) == Normalized(s, i)[p..]
    decreases p
  {
    if p > 0 {
      RawAtMeans(s, if PairAt(s, i) then i + 2 else i + 1, p - 1);
    }
  }

  lemma {:induction false} RawAtExactly(s: string, i: nat, p: nat)
    requires i <= |s| && p <= |Normalized(s, i)|
    ensures RawAt(s, i, p) >= i + p
    ensures RawAt(s, i, p) == i + p <==> forall k | i <= k < i + p :: !PairAt(s, k)
    decreases p
  {
    if p > 0 {
      RawAtExactly(s, if PairAt(s, i) then i + 2 else i + 1, p - 1);
    }
  }

  /** Cutting the raw text at the normalized text's own positions is right exactly when no CR LF begins before the end. */
  lemma CutExactly(text: string, at: nat, end: nat)
    requires at <= end <= |Normalized(text, 0)|
    ensures (RawAt(text, 0, at) == at && RawAt(text, 0, end) == end) <==> forall k | 0 <= k < end :: !PairAt(text, k)
  {
    RawAtExactly(text, 0, at);
    RawAtExactly(text, 0, end);
  }

  /** On any text, read or raw, the second case of the replacement cuts where the match stands
      exactly when no CR LF begins before the end of the match. */
  lemma NormalizedCutExactly(text: string, part: string, at: nat)
    requires Find(Normalized(text, 0), part, 0) == Some(at)
    ensures (RawAt(text, 0, at) == at && RawAt(text, 0, at + |part|) == at + |part|)
       <==> forall k | 0 <= k < at + |part| :: !PairAt(text, k)
  {
    CutExactly(text, at, at + |part|);
  }

  // ---- a file and its versions ----

  datatype Version = Version(number: nat, content: string)

  datatype Outcome = Done | Denied | NotFound | Failed

  /** What can go wrong in a mutation after its snapshot: writing raises and leaves something on disk, and
      the session with the snapshot is committed later or not; or the commit itself raises. */
  datatype Fault = NoFault | WriteRaises(leaves: string, committedLater: bool) | CommitRaises

  /** A snapshot whose reading fails is skipped without notice. */
  datatype Io = Io(snapshotFails: bool, fault: Fault)

  predicate Snapshots(io: Io)
  {
    !io.snapshotFails && (io.fault.NoFault? || (io.fault.WriteRaises? && io.fault.committedLater))
  }

  function OnDisk(io: Io, content: string): string
  {
    if io.fault.WriteRaises? then io.fault.leaves else content
  }

  class StoredFile {
    const owner: int
    var disk: string
    var versions: seq<Version>
    ghost var texts: seq<string>  // the text before each successful mutation
    ghost var faultless: bool     // nothing has gone wrong so far

    /** Versions are numbered from one and hold text as read; in a faultless history version i holds
        the text before mutation i, for every mutation. */
    ghost predicate Valid()
      reads this
    {
      && (forall i | 0 <= i < |versions| :: versions[i].number == i + 1 && NoReturns(versions[i].content))
      && (faultless ==> |versions| == |texts| && forall i | 0 <= i < |versions| :: versions[i].content == texts[i])
    }

    ghost predicate Untouched(disk': string, versions': seq<Version>, texts': seq<string>, faultless': bool)
      reads this
    {
      disk == disk' && versions == versions' && texts == texts' && faultless == faultless'
    }

    constructor (owner: int, content: string)
      ensures Valid() && this.owner == owner && disk == content && versions == [] && texts == [] && faultless
    {
      this.owner, disk := owner, content;
      versions, texts, faultless := [], [], true;
    }

    method SaveVersion(readFails: bool)
      requires forall i | 0 <= i < |versions| :: versions[i].number == i + 1 && NoReturns(versions[i].content)
      modifies this`versions
      ensures forall i | 0 <= i < |versions| :: versions[i].number == i + 1 && NoReturns(versions[i].content)
      ensures versions == old(versions) + if readFails then [] else [Version(|old(versions)| + 1, TextOf(disk))]
    {
      if !readFails {
        TranslatedHasNoReturns(disk, 0);
        versions := versions + [Version(|versions| + 1, TextOf(disk))];
      }
    }

    /** A successful mutation is recorded with the text before it, and a fault remembered. */
    ghost predicate Recorded(texts': seq<string>, faultless': bool, text: string, io: Io)
      reads this
    {
      && texts == texts' + (if io.fault.NoFault? then [text] else [])
      && faultless == (faultless' && !io.snapshotFails && io.fault.NoFault?)
    }

    /** Snapshot the text, write the new content, commit. The new version holds the text before the mutation. */
    method Mutate(content: string, io: Io) returns (r: Outcome)
      requires Valid()
      modifies this
      ensures Valid() && r == (if io.fault.NoFault? then Done else Failed)
      ensures disk == OnDisk(io, content)
      ensures versions == old(versions) + if Snapshots(io) then [Version(|old(versions)| + 1, TextOf(old(disk)))] else []
      ensures Recorded(old(texts), old(faultless), TextOf(old(disk)), io)
    {
      var before := versions;
      SaveVersion(io.snapshotFails);
      texts := texts + if io.fault.NoFault? then [TextOf(disk)] else [];
      faultless := faultless && !io.snapshotFails && io.fault.NoFault?;
      match io.fault
      case NoFault =>
        disk := content;
        return Done;
      case WriteRaises(leaves, later) =>
        disk := leaves;
        if !later {
          versions := before;
        }
        return Failed;
      case CommitRaises =>
        disk := content;
        versions := before;
        return Failed;
    }

    method Write(user: int, content: string, io: Io) returns (r: Outcome)
      requires Valid()
      modifies this
      ensures Valid() && r == if user != owner then Denied else if io.fault.NoFault? then Done else Failed
      ensures user == owner ==> disk == OnDisk(io, content)
      ensures user == owner ==>
        versions == old(versions) + if Snapshots(io) then [Version(|old(versions)| + 1, TextOf(old(disk)))] else []
      ensures user == owner ==> Recorded(old(texts), old(faultless), TextOf(old(disk)), io)
      ensures user != owner ==> Untouched(old(disk), old(versions), old(texts), old(faultless))
    {
      if user != owner {
        return Denied;
      }
      r := Mutate(content, io);
    }

    method Append(user: int, content: string, io: Io) returns (r: Outcome)
      requires Valid()
      modifies this
      ensures Valid() && r == if user != owner then Denied else if io.fault.NoFault? then Done else Failed
      ensures user == owner ==>
        disk == OnDisk(io, old(disk) + ((if content == "" || content[0] == '\n' then "" else "\n\n") + content))
      ensures user == owner ==>
        versions == old(versions) + if Snapshots(io) then [Version(|old(versions)| + 1, TextOf(old(disk)))] else []
      ensures user == owner ==> Recorded(old(texts), old(faultless), TextOf(old(disk)), io)
      ensures user != owner ==> Untouched(old(disk), old(versions), old(texts), old(faultless))
    {
      if user != owner {
        return Denied;
      }
      var separator := if content != "" && content[0] != '\n' then "\n\n" else "";
      r := Mutate(disk + (separator + content), io);
    }

    /** Replace the first occurrence of the target; without one, nothing changes and no version is taken. */
    method Patch(user: int, wanted: string, replacement: string, readFails: bool, io: Io) returns (r: Outcome)
      requires Valid()
      modifies this
      ensures Valid()
      ensures r == if user != owner then Denied
                   else if readFails then Failed
                   else if Target(TextOf(old(disk)), wanted).None? then NotFound
                   else if io.fault.NoFault? then Done else Failed
      ensures user != owner || readFails || r == NotFound ==> Untouched(old(disk), old(versions), old(texts), old(faultless))
      ensures user == owner && !readFails && r != NotFound ==> Recorded(old(texts), old(faultless), TextOf(old(disk)), io)
      ensures user == owner && !readFails && r != NotFound ==>
        var text := TextOf(old(disk));
        var part := Target(text, wanted).value;
        && disk == OnDisk(io, Spliced(text, Find(text, part, 0).value, |part|, replacement))
        && versions == old(versions) + if Snapshots(io) then [Version(|old(versions)| + 1, text)] else []
    {
      if user != owner {
        return Denied;
      }
      if readFails {
        return Failed;
      }
      var updated := FuzzyReplace(TextOf(disk), wanted, replacement);
      PatchReplacesOne(disk, wanted, replacement);
      if updated.None? {
        return NotFound;
      }
      r := Mutate(updated.value, io);
    }

    /**
      * Bring back the text of a version; what it replaces becomes the newest version, so that it can
      * itself be undone. The content is returned even when writing it failed.
      */
    method Restore(user: int, number: nat, io: Io) returns (r: Option<string>)
      requires Valid()
      modifies this
      ensures Valid() && (r.Some? <==> user == owner && 1 <= number <= |old(versions)|)
      ensures r.Some? ==> r.value == old(versions)[number - 1].content && disk == OnDisk(io, r.value)
      ensures r.Some? && io.fault.NoFault? ==> TextOf(disk) == r.value
      ensures r.Some? ==>
        versions == old(versions) + if Snapshots(io) then [Version(|old(versions)| + 1, TextOf(old(disk)))] else []
      ensures r.Some? ==> Recorded(old(texts), old(faultless), TextOf(old(disk)), io)
      ensures r.None? ==> Untouched(old(disk), old(versions), old(texts), old(faultless))
    {
      if user != owner || number == 0 || number > |versions| {
        return None;
      }
      var content := versions[number - 1].content;
      TranslatedKeeps(content, 0);
      var _ := Write(user, content, io);
      return Some(content);
    }

    /** Undo the last mutation, and undo that: the text is what it was. */
    method UndoAndRedo(user: int)
      requires Valid() && user == owner && versions != []
      modifies this
      ensures Valid() && TextOf(disk) == old(TextOf(disk)) && |versions| == |old(versions)| + 2
    {
      var n := |versions|;
      var _ := Restore(user, n, Io(false, NoFault));
      var _ := Restore(user, n + 1, Io(false, NoFault));
    }
  }
}
