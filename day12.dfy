/** Day 12: condition records of springs. A record is a row of conditions,
    '#' damaged, '.' operational and '?' unknown, followed by the sizes of
    the contiguous damaged groups. The arrangements are enumerated by
    replacing the unknowns one at a time, left to right, keeping only the
    beginnings that pass the record's criteria check. */
module Day12 {
  import opened Text

  datatype ConditionsRecord = ConditionsRecord(originalConditions: string, contiguousGroups: seq<int>)

  // ---------------------------------------------------------------------
  // Parsing

  /** `int(x)` over a list, one element at a time from the back. */
  lemma {:induction false} ParseIntsSnoc(pieces: seq<string>, last: string)
    ensures ParseInts(pieces + [last]) == match (ParseInts(pieces), ParseInt(last))
      case (Some(vs), Some(v)) => Some(vs + [v])
      case _ => None
  {
    if pieces == [] {
      ParseIntsCons(last, []);
      assert pieces + [last] == [last] + [];
      if ParseInt(last).Some? {
        assert [] + [ParseInt(last).value] == [ParseInt(last).value] + [];
      }
    } else {
      var rest := pieces[1..];
      ParseIntsSnoc(rest, last);
      ParseIntsCons(pieces[0], rest + [last]);
      ParseIntsCons(pieces[0], rest);
      assert pieces + [last] == [pieces[0]] + (rest + [last]);
      assert pieces == [pieces[0]] + rest;
      var h, t, l := ParseInt(pieces[0]), ParseInts(rest), ParseInt(last);
      if h.Some? && t.Some? && l.Some? {
        assert [h.value] + (t.value + [l.value]) == ([h.value] + t.value) + [l.value];
      }
    }
  }

  /** `ConditionsRecord.determine_contiguous_groups`: the comma-separated
      integers, in order; `None` is the ValueError of a piece that is not an
      integer. */
  method DetermineContiguousGroups(notes: string) returns (groups: Option<seq<int>>)
    ensures groups == ParseInts(Split(notes, ","))
  {
    var pieces := Split(notes, ",");
    var parsed: seq<int> := [];
    for k := 0 to |pieces|
      invariant ParseInts(pieces[..k]) == Some(parsed)
    {
      ParseIntsSnoc(pieces[..k], pieces[k]);
      assert pieces[..k + 1] == pieces[..k] + [pieces[k]];
      var value := ParseInt(pieces[k]);
      if value.None? {
        ParseIntsNone(pieces, k + 1);
        return None;
      }
      parsed := parsed + [value.value];
    }
    assert pieces[..|pieces|] == pieces;
    return Some(parsed);
  }

  /** A prefix that does not parse stops the whole list. */
  lemma {:induction false} ParseIntsNone(pieces: seq<string>, n: nat)
    requires n <= |pieces| && ParseInts(pieces[..n]).None?
    ensures ParseInts(pieces).None?
  {
    ParseIntsFails(pieces[..n]);
    var k :| 0 <= k < n && ParseInt(pieces[..n][k]).None?;
    assert pieces[..n][k] == pieces[k];
  }

  /** A list that does not parse has a piece that does not. */
  lemma {:induction false} ParseIntsFails(pieces: seq<string>)
    requires ParseInts(pieces).None?
    ensures exists k :: 0 <= k < |pieces| && ParseInt(pieces[k]).None?
  {
    if ParseInt(pieces[0]).Some? {
      ParseIntsFails(pieces[1..]);
      var k :| 0 <= k < |pieces[1..]| && ParseInt(pieces[1..][k]).None?;
      assert pieces[k + 1] == pieces[1..][k];
    }
  }

  /** The decimal texts of `groups`. */
  function GroupTexts(groups: seq<int>): (r: seq<string>)
    ensures |r| == |groups|
    ensures forall k :: 0 <= k < |r| ==> r[k] == IntToString(groups[k])
  {
    if groups == [] then [] else [IntToString(groups[0])] + GroupTexts(groups[1..])
  }

  /** Writing a non-empty list of group sizes with commas and reading it
      back gives the list. */
  lemma {:induction false} GroupsRoundTrip(groups: seq<int>)
    requires |groups| > 0
    ensures ParseInts(Split(Join(GroupTexts(groups), ","), ",")) == Some(groups)
  {
    var texts := GroupTexts(groups);
    forall k | 0 <= k < |texts| ensures ',' !in texts[k] {
      IntTextChars(groups[k]);
    }
    JoinSplit(texts, ',');
    TextsParse(groups);
  }

  /** `str(i)` is digits, after a '-' when negative. */
  lemma {:induction false} IntTextChars(i: int)
    ensures forall j :: 0 <= j < |IntToString(i)| ==> IsDigit(IntToString(i)[j]) || IntToString(i)[j] == '-'
  {
    if i < 0 {
      var digits := NatToString(-i);
      forall j | 1 <= j < |IntToString(i)| ensures IsDigit(IntToString(i)[j]) {
        assert IntToString(i)[j] == digits[j - 1];
      }
    }
  }

  lemma {:induction false} TextsParse(groups: seq<int>)
    ensures ParseInts(GroupTexts(groups)) == Some(groups)
  {
    if groups != [] {
      TextsParse(groups[1..]);
      ParseIntRoundTrip(groups[0]);
      ParseIntsCons(IntToString(groups[0]), GroupTexts(groups[1..]));
      assert GroupTexts(groups) == [IntToString(groups[0])] + GroupTexts(groups[1..]);
      assert [groups[0]] + groups[1..] == groups;
    }
  }

  /** The record a description line describes: the conditions before the
      first space and the groups after it. */
  function ParseRecord(description: string): Option<ConditionsRecord>
  {
    var versions := Split(description, " ");
    if |versions| < 2 then None
    else match ParseInts(Split(versions[1], ","))
      case None => None
      case Some(groups) => Some(ConditionsRecord(versions[0], groups))
  }

  /** A character in neither the pieces nor the separator is not in their
      join. */
  lemma {:induction false} JoinFree(pieces: seq<string>, sep: string, c: char)
    requires c !in sep && forall k :: 0 <= k < |pieces| ==> c !in pieces[k]
    ensures c !in Join(pieces, sep)
  {
    if |pieces| > 1 {
      JoinFree(pieces[1..], sep, c);
    }
  }

  /** A record written back as its line, conditions without spaces, a
      space, and the groups joined by commas, reads back as the record. */
  lemma {:induction false} RecordRoundTrip(record: ConditionsRecord)
    requires ' ' !in record.originalConditions && |record.contiguousGroups| > 0
    ensures ParseRecord(record.originalConditions + " " + Join(GroupTexts(record.contiguousGroups), ","))
      == Some(record)
  {
    var notes := Join(GroupTexts(record.contiguousGroups), ",");
    forall k | 0 <= k < |record.contiguousGroups| ensures ' ' !in GroupTexts(record.contiguousGroups)[k] {
      IntTextChars(record.contiguousGroups[k]);
    }
    JoinFree(GroupTexts(record.contiguousGroups), ",", ' ');
    SplitFirst(record.originalConditions, " ", notes);
    SplitAbsent(notes, " ", 0);
    GroupsRoundTrip(record.contiguousGroups);
  }

  /** `ConditionsRecord.__init__`: `None` is the IndexError of a line
      without a space or the ValueError of a group that is not an integer. */
  method NewConditionsRecord(description: string) returns (record: Option<ConditionsRecord>)
    ensures record == ParseRecord(description)
  {
    var versions := Split(description, " ");
    if |versions| < 2 {
      return None;
    }
    var groups := DetermineContiguousGroups(versions[1]);
    if groups.None? {
      return None;
    }
    return Some(ConditionsRecord(versions[0], groups.value));
  }

  /** `RecordsCollection.create_records`: every line's record, in order;
      `None` when a line has none. */
  method CreateRecords(descriptions: seq<string>) returns (records: Option<seq<ConditionsRecord>>)
    ensures records == ParseLines(ParseRecord, descriptions)
  {
    var built: seq<ConditionsRecord> := [];
    for index := 0 to |descriptions|
      invariant ParseLines(ParseRecord, descriptions[..index]) == Some(built)
    {
      assert descriptions[..index + 1][..index] == descriptions[..index];
      var record := NewConditionsRecord(descriptions[index]);
      if record.None? {
        ParseLinesPrefix(ParseRecord, descriptions, index + 1);
        return None;
      }
      built := built + [record.value];
    }
    assert descriptions[..|descriptions|] == descriptions;
    return Some(built);
  }

  // ---------------------------------------------------------------------
  // Searching the conditions

  /** `ConditionsRecord.find_next_unknown_condition`: the first '?' at or
      after `start` (counted from the end when negative, as `str.find`
      does), or -1 when there is none. */
  function FindNextUnknownCondition(record: ConditionsRecord, start: int): (r: int)
    ensures r == -1 || (NormalizeStart(record.originalConditions, start) <= r
      && r < |record.originalConditions| && record.originalConditions[r] == '?')
    ensures r != -1 ==> '?' !in record.originalConditions[NormalizeStart(record.originalConditions, start)..r]
    ensures r == -1 && NormalizeStart(record.originalConditions, start) <= |record.originalConditions| ==>
      '?' !in record.originalConditions[NormalizeStart(record.originalConditions, start)..]
  {
    FindCharMeaning(record.originalConditions, '?', start);
    Find(record.originalConditions, "?", start)
  }

  /** `find` of one character, as positions of that character. */
  lemma {:induction false} FindCharMeaning(s: string, c: char, start: int)
    ensures var r := Find(s, [c], start); var i := NormalizeStart(s, start);
      (r == -1 || (i <= r < |s| && s[r] == c))
      && (r != -1 ==> c !in s[i..r])
      && (r == -1 && i <= |s| ==> c !in s[i..])
  {
    var r := Find(s, [c], start);
    var i := NormalizeStart(s, start);
    if r != -1 {
      assert s[r..r + 1] == [c];
      forall j | i <= j < r ensures s[j] != c {
        assert !OccursAt(s, [c], j);
        assert s[j..j + 1] == [s[j]];
      }
    } else if i <= |s| {
      forall j | i <= j < |s| ensures s[j] != c {
        assert !OccursAt(s, [c], j);
        assert s[j..j + 1] == [s[j]];
      }
    }
  }

  /** What `find_next_damaged_group` returns: `length` and `end_index`. */
  datatype DamagedGroup = DamagedGroup(length: int, endIndex: int)

  /** `ConditionsRecord.find_next_damaged_group`: the group starts at the
      smaller of the next '#' and the next '?' and ends at the smaller of
      the following '.' and '?', where a missing one (-1) counts as the
      smallest; a group that starts where it ends has length 1. */
  function FindNextDamagedGroup(description: string, start: int): DamagedGroup
  {
    var nextDamaged := Find(description, "#", start);
    var nextUnknown := Find(description, "?", start);
    var leastStarting := if nextDamaged < nextUnknown then nextDamaged else nextUnknown;
    var laterOperational := Find(description, ".", leastStarting);
    var laterUnknown := Find(description, "?", leastStarting);
    var leastEnding := if laterOperational < laterUnknown then laterOperational else laterUnknown;
    var length := if leastEnding != leastStarting then leastEnding - leastStarting else 1;
    DamagedGroup(length, leastEnding)
  }

  /** No '?' occurs in `s`, so `find` of it is -1 from any start. */
  lemma {:induction false} NoUnknownFind(s: string, start: int)
    requires '?' !in s
    ensures Find(s, "?", start) == -1
  {
    FindCharMeaning(s, '?', start);
  }

  /** Because a missing '?' counts as the smallest index, a description
      without any '?' always yields a group of length 1 ending at -1,
      wherever its '#' are. */
  lemma {:induction false} NoUnknownGroup(description: string, start: int)
    requires '?' !in description
    ensures FindNextDamagedGroup(description, start) == DamagedGroup(1, -1)
  {
    NoUnknownFind(description, start);
    NoUnknownFind(description, -1);
  }

  /** A '?' followed by a '#' and no '.': the group starts at the '?',
      and the missing '.' (-1) ends it before it starts, with length -1. */
  lemma {:induction false} NegativeLength()
    ensures FindNextDamagedGroup("?#", 0) == DamagedGroup(-1, -1)
  {
    var s := "?#";
    assert |s| == 2 && s[0] == '?' && s[1] == '#';
    FindCharMeaning(s, '#', 0);
    FindCharMeaning(s, '?', 0);
    FindCharMeaning(s, '.', 0);
    assert s[0..1] == ['?'] && s[0..] == s;
  }

  // ---------------------------------------------------------------------
  // The criteria

  /** The text checked for `beginning`: the beginning, then the original
      conditions from its length on. */
  function PossibleDescription(record: ConditionsRecord, beginning: string): string
  {
    var original := record.originalConditions;
    beginning + (if |beginning| <= |original| then original[|beginning|..] else "")
  }

  /** `find_next_damaged_group` on one description, as a function of the
      start index. */
  function Stepper(description: string): int -> DamagedGroup
  {
    i => FindNextDamagedGroup(description, i)
  }

  /** The scan of `check_if_meets_criteria` with group finder `next`, from
      description index `index` and group `group`: it stops when a required
      group is shorter than the scanned run, or when the index reaches
      `size` (the length of the conditions) or every group has been
      scanned, and passes when every group has been. */
  function ScanWith(next: int -> DamagedGroup, groups: seq<int>, size: int, index: int, group: nat): bool
    decreases |groups| - group
  {
    if index < size && group < |groups| then
      var found := next(index);
      if groups[group] < found.length then false
      else ScanWith(next, groups, size, found.endIndex, group + 1)
    else group == |groups|
  }

  /** The scan of one record's description. */
  function Scan(record: ConditionsRecord, description: string, index: int, group: nat): bool
  {
    ScanWith(Stepper(description), record.contiguousGroups, |record.originalConditions|, index, group)
  }

  /** `ConditionsRecord.check_if_meets_criteria`. */
  method CheckIfMeetsCriteria(record: ConditionsRecord, beginning: string) returns (meets: bool)
    ensures meets == Scan(record, PossibleDescription(record, beginning), 0, 0)
  {
    var original := record.originalConditions;
    var groups := record.contiguousGroups;
    meets := true;
    var description := beginning + (if |beginning| <= |original| then original[|beginning|..] else "");
    var index := 0;
    var group := 0;
    while meets && index < |original| && group < |groups|
      invariant 0 <= group <= |groups|
      invariant meets ==> Scan(record, description, index, group) == Scan(record, description, 0, 0)
      invariant !meets ==> !Scan(record, description, 0, 0)
      decreases |groups| - group, meets
    {
      var next := FindNextDamagedGroup(description, index);
      if groups[group] < next.length {
        meets := false;
      } else {
        index := next.endIndex;
        group := group + 1;
      }
    }
    if group != |groups| {
      meets := false;
    }
  }

  /** Where the scan stands before group `k`, when nothing fails: the
      description index after the first `k` groups. */
  function IndexWith(next: int -> DamagedGroup, k: nat): int
  {
    if k == 0 then 0 else next(IndexWith(next, k - 1)).endIndex
  }

  /** Group `j` is reached before `size`, and the run found there is no
      longer than required. */
  predicate OkWith(next: int -> DamagedGroup, groups: seq<int>, size: int, j: nat)
    requires j < |groups|
  {
    var index := IndexWith(next, j);
    index < size && next(index).length <= groups[j]
  }

  /** The scan passes exactly when every group from `k` on is reached
      before `size` and is no longer than required. */
  lemma {:induction false} ScanWithMeaning(next: int -> DamagedGroup, groups: seq<int>, size: int, k: nat)
    requires k <= |groups|
    ensures ScanWith(next, groups, size, IndexWith(next, k), k) <==>
      (forall j :: k <= j < |groups| ==> OkWith(next, groups, size, j))
    decreases |groups| - k
  {
    if k < |groups| {
      ScanWithMeaning(next, groups, size, k + 1);
      var index := IndexWith(next, k);
      assert IndexWith(next, k + 1) == next(index).endIndex;
      assert ScanWith(next, groups, size, index, k) <==>
        OkWith(next, groups, size, k) && ScanWith(next, groups, size, IndexWith(next, k + 1), k + 1);
      assert (forall j :: k <= j < |groups| ==> OkWith(next, groups, size, j)) <==>
        OkWith(next, groups, size, k) && (forall j :: k + 1 <= j < |groups| ==> OkWith(next, groups, size, j));
    }
  }

  /** The description index before group `k` of a record's scan. */
  function ScanIndex(description: string, k: nat): int
  {
    IndexWith(Stepper(description), k)
  }

  /** Group `j` of a record's scan passes. */
  predicate GroupOk(record: ConditionsRecord, description: string, j: nat)
    requires j < |record.contiguousGroups|
  {
    OkWith(Stepper(description), record.contiguousGroups, |record.originalConditions|, j)
  }

  /** The criteria hold exactly when there are the required number of
      groups to scan, each reached before the end of the conditions and no
      longer than required (a run shorter than required passes). */
  lemma {:induction false} CriteriaMeaning(record: ConditionsRecord, beginning: string)
    ensures Scan(record, PossibleDescription(record, beginning), 0, 0) <==>
      (forall j :: 0 <= j < |record.contiguousGroups| ==> GroupOk(record, PossibleDescription(record, beginning), j))
  {
    var description := PossibleDescription(record, beginning);
    ScanWithMeaning(Stepper(description), record.contiguousGroups, |record.originalConditions|, 0);
    assert IndexWith(Stepper(description), 0) == 0;
    forall j | 0 <= j < |record.contiguousGroups|
      ensures GroupOk(record, description, j) ==
        OkWith(Stepper(description), record.contiguousGroups, |record.originalConditions|, j)
    {
    }
  }

  /** Since every group of a description without '?' has length 1, the
      criteria then only ask for non-empty conditions and groups of at
      least 1, whatever the arrangement. */
  lemma {:induction false} CriteriaWithoutUnknowns(record: ConditionsRecord, beginning: string)
    requires '?' !in PossibleDescription(record, beginning)
    ensures Scan(record, PossibleDescription(record, beginning), 0, 0) <==>
      |record.contiguousGroups| == 0 ||
      (|record.originalConditions| > 0 && forall j :: 0 <= j < |record.contiguousGroups| ==> record.contiguousGroups[j] >= 1)
  {
    var description := PossibleDescription(record, beginning);
    var groups := record.contiguousGroups;
    CriteriaMeaning(record, beginning);
    forall j | 0 <= j < |groups|
      ensures GroupOk(record, description, j) <==> (j == 0 ==> |record.originalConditions| > 0) && groups[j] >= 1
    {
      NoUnknownIndex(description, j);
    }
    if |groups| > 0 && |record.originalConditions| == 0 {
      assert !GroupOk(record, description, 0);
    }
  }

  lemma {:induction false} NoUnknownIndex(description: string, j: nat)
    requires '?' !in description
    ensures ScanIndex(description, j) == (if j == 0 then 0 else -1)
    ensures FindNextDamagedGroup(description, ScanIndex(description, j)) == DamagedGroup(1, -1)
  {
    if j > 0 {
      NoUnknownGroup(description, ScanIndex(description, j - 1));
    }
    NoUnknownGroup(description, ScanIndex(description, j));
  }

  // ---------------------------------------------------------------------
  // Enumerating the arrangements

  /** A beginning on the stack: it copies the original's known conditions,
      has no '?', and ends where the original has a '?'. */
  predicate Candidate(record: ConditionsRecord, beginning: string)
  {
    var original := record.originalConditions;
    0 < |beginning| <= |original| && '?' !in beginning && original[|beginning| - 1] == '?'
    && forall i :: 0 <= i < |beginning| && original[i] != '?' ==> beginning[i] == original[i]
  }

  /** The two beginnings after `beginning`: its text, the original's
      conditions up to the next '?', and then '#' or '.'. */
  function Possibilities(record: ConditionsRecord, beginning: string, next: nat): (r: seq<string>)
    requires |beginning| <= next < |record.originalConditions|
    ensures |r| == 2 && |r[0]| == |r[1]| == next + 1
  {
    var setSubsection := beginning + record.originalConditions[|beginning|..next];
    [setSubsection + "#", setSubsection + "."]
  }

  /** The possibilities that pass the criteria, in order. */
  function Accepted(record: ConditionsRecord, possibilities: seq<string>): seq<string>
  {
    if possibilities == [] then []
    else
      var p := possibilities[|possibilities| - 1];
      Accepted(record, possibilities[..|possibilities| - 1])
        + (if Scan(record, PossibleDescription(record, p), 0, 0) then [p] else [])
  }

  /** The beginnings pushed for `beginning`: none when no '?' follows it. */
  function Children(record: ConditionsRecord, beginning: string): (r: seq<string>)
    ensures |r| <= 2
    ensures forall k :: 0 <= k < |r| ==> |beginning| < |r[k]| <= |record.originalConditions|
  {
    var next := FindNextUnknownCondition(record, |beginning|);
    if next == -1 then []
    else
      var possibilities := Possibilities(record, beginning, next);
      AcceptedIn(record, possibilities);
      Accepted(record, possibilities)
  }

  lemma {:induction false} AcceptedIn(record: ConditionsRecord, possibilities: seq<string>)
    ensures forall k :: 0 <= k < |Accepted(record, possibilities)| ==> Accepted(record, possibilities)[k] in possibilities
    ensures |Accepted(record, possibilities)| <= |possibilities|
  {
    if possibilities != [] {
      AcceptedIn(record, possibilities[..|possibilities| - 1]);
    }
  }

  /** Each possibility after a beginning extends it by the original's
      known conditions up to the next '?', and then fills that '?' with
      '#' or '.'. */
  lemma {:induction false} PossibilityIsCandidate(record: ConditionsRecord, beginning: string, j: nat)
    requires beginning == [] || Candidate(record, beginning)
    requires FindNextUnknownCondition(record, |beginning|) != -1 && j < 2
    ensures var p := Possibilities(record, beginning, FindNextUnknownCondition(record, |beginning|))[j];
      Candidate(record, p) && p[..|beginning|] == beginning && p[|p| - 1] in "#."
  {
    var original := record.originalConditions;
    var next := FindNextUnknownCondition(record, |beginning|);
    var middle := original[|beginning|..next];
    var p := Possibilities(record, beginning, next)[j];
    assert p == beginning + middle + [p[|p| - 1]];
    assert p[..|beginning|] == beginning;
    forall i | 0 <= i < |p| ensures p[i] != '?' && (original[i] != '?' ==> p[i] == original[i]) {
      if i < |beginning| {
        assert p[i] == beginning[i];
      } else if i < next {
        assert p[i] == middle[i - |beginning|];
      }
    }
  }

  /** The beginnings pushed after a beginning are candidates that extend
      it. */
  lemma {:induction false} ChildrenAreCandidates(record: ConditionsRecord, beginning: string)
    requires beginning == [] || Candidate(record, beginning)
    ensures forall k :: 0 <= k < |Children(record, beginning)| ==>
      Candidate(record, Children(record, beginning)[k])
      && Children(record, beginning)[k][..|beginning|] == beginning
  {
    var next := FindNextUnknownCondition(record, |beginning|);
    if next != -1 {
      ChildrenAt(record, beginning, next);
      var possibilities := Possibilities(record, beginning, next);
      var children := Children(record, beginning);
      AcceptedIn(record, possibilities);
      PossibilityIsCandidate(record, beginning, 0);
      PossibilityIsCandidate(record, beginning, 1);
      forall k | 0 <= k < |children|
        ensures Candidate(record, children[k]) && children[k][..|beginning|] == beginning
      {
        assert children[k] == possibilities[0] || children[k] == possibilities[1];
      }
    }
  }

  /** The arrangements reached from `beginning`: 1 when no '?' follows it,
      otherwise those of its accepted children. */
  function Arrangements(record: ConditionsRecord, beginning: string): nat
    decreases |record.originalConditions| + 1 - |beginning|, 3
  {
    if FindNextUnknownCondition(record, |beginning|) == -1 then 1
    else Total(record, beginning, Children(record, beginning))
  }

  /** The arrangements reached from each of `beginnings`, all longer than
      `parent`. */
  function Total(record: ConditionsRecord, parent: string, beginnings: seq<string>): nat
    requires forall k :: 0 <= k < |beginnings| ==> |parent| < |beginnings[k]| <= |record.originalConditions|
    decreases |record.originalConditions| + 1 - |parent|, |beginnings|
  {
    if beginnings == [] then 0
    else Total(record, parent, beginnings[..|beginnings| - 1]) + Arrangements(record, beginnings[|beginnings| - 1])
  }

  /** The beginnings visited from `beginning`, itself included. */
  function Visits(record: ConditionsRecord, beginning: string): nat
    decreases |record.originalConditions| + 1 - |beginning|, 3
  {
    if FindNextUnknownCondition(record, |beginning|) == -1 then 1
    else 1 + VisitsOf(record, beginning, Children(record, beginning))
  }

  function VisitsOf(record: ConditionsRecord, parent: string, beginnings: seq<string>): nat
    requires forall k :: 0 <= k < |beginnings| ==> |parent| < |beginnings[k]| <= |record.originalConditions|
    decreases |record.originalConditions| + 1 - |parent|, |beginnings|
  {
    if beginnings == [] then 0
    else VisitsOf(record, parent, beginnings[..|beginnings| - 1]) + Visits(record, beginnings[|beginnings| - 1])
  }

  /** The arrangements and visits still to come from a stack of beginnings. */
  function Pending(record: ConditionsRecord, stack: seq<string>): nat
  {
    if stack == [] then 0 else Pending(record, stack[..|stack| - 1]) + Arrangements(record, stack[|stack| - 1])
  }

  function PendingVisits(record: ConditionsRecord, stack: seq<string>): nat
  {
    if stack == [] then 0 else PendingVisits(record, stack[..|stack| - 1]) + Visits(record, stack[|stack| - 1])
  }

  lemma {:induction false} PendingAppend(record: ConditionsRecord, stack: seq<string>, more: seq<string>)
    ensures Pending(record, stack + more) == Pending(record, stack) + Pending(record, more)
    ensures PendingVisits(record, stack + more) == PendingVisits(record, stack) + PendingVisits(record, more)
    decreases |more|
  {
    if more != [] {
      PendingAppend(record, stack, more[..|more| - 1]);
      assert (stack + more)[..|stack + more| - 1] == stack + more[..|more| - 1];
    } else {
      assert stack + more == stack;
    }
  }

  lemma {:induction false} PendingTotal(record: ConditionsRecord, parent: string, beginnings: seq<string>)
    requires forall k :: 0 <= k < |beginnings| ==> |parent| < |beginnings[k]| <= |record.originalConditions|
    ensures Pending(record, beginnings) == Total(record, parent, beginnings)
    ensures PendingVisits(record, beginnings) == VisitsOf(record, parent, beginnings)
  {
    if beginnings != [] {
      PendingTotal(record, parent, beginnings[..|beginnings| - 1]);
    }
  }

  /** Expanding a beginning replaces it on the stack by its children:
      the arrangements still to come are unchanged and one visit is done. */
  lemma {:induction false} Expand(record: ConditionsRecord, rest: seq<string>, beginning: string)
    requires FindNextUnknownCondition(record, |beginning|) != -1
    ensures Pending(record, rest + Children(record, beginning)) == Pending(record, rest) + Arrangements(record, beginning)
    ensures PendingVisits(record, rest + Children(record, beginning)) + 1 == PendingVisits(record, rest) + Visits(record, beginning)
  {
    var children := Children(record, beginning);
    assert Arrangements(record, beginning) == Total(record, beginning, children);
    assert Visits(record, beginning) == 1 + VisitsOf(record, beginning, children);
    PendingAppend(record, rest, children);
    PendingTotal(record, beginning, children);
  }

  /** The stack keeps only candidates. */
  lemma {:induction false} ExpandCandidates(record: ConditionsRecord, rest: seq<string>, beginning: string)
    requires forall k :: 0 <= k < |rest| ==> Candidate(record, rest[k])
    requires Candidate(record, beginning)
    ensures forall k :: 0 <= k < |rest + Children(record, beginning)| ==> Candidate(record, (rest + Children(record, beginning))[k])
  {
    ChildrenAreCandidates(record, beginning);
    var children := Children(record, beginning);
    forall k | 0 <= k < |rest + children| ensures Candidate(record, (rest + children)[k]) {
      if k >= |rest| {
        assert (rest + children)[k] == children[k - |rest|];
      } else {
        assert (rest + children)[k] == rest[k];
      }
    }
  }

  /** Popping the last beginning off the stack. */
  lemma {:induction false} Pop(record: ConditionsRecord, stack: seq<string>)
    requires stack != []
    ensures Pending(record, stack) == Pending(record, stack[..|stack| - 1]) + Arrangements(record, stack[|stack| - 1])
    ensures PendingVisits(record, stack) == PendingVisits(record, stack[..|stack| - 1]) + Visits(record, stack[|stack| - 1])
  {
  }

  /** The beginnings pushed after `beginning` when its next '?' is at
      `next`. */
  lemma {:induction false} ChildrenAt(record: ConditionsRecord, beginning: string, next: int)
    requires next == FindNextUnknownCondition(record, |beginning|) && next != -1
    ensures |beginning| <= next < |record.originalConditions|
    ensures Children(record, beginning) == Accepted(record, Possibilities(record, beginning, next))
  {
  }

  /** A beginning with no '?' after it is one arrangement, one visit. */
  lemma {:induction false} Leaf(record: ConditionsRecord, beginning: string)
    requires FindNextUnknownCondition(record, |beginning|) == -1
    ensures Arrangements(record, beginning) == 1 && Visits(record, beginning) == 1
  {
  }

  /** One more possibility is kept exactly when it meets the criteria. */
  lemma AcceptedStep(record: ConditionsRecord, possibilities: seq<string>, k: nat)
    requires k < |possibilities|
    ensures Accepted(record, possibilities[..k + 1]) == Accepted(record, possibilities[..k])
      + (if Scan(record, PossibleDescription(record, possibilities[k]), 0, 0) then [possibilities[k]] else [])
  {
    assert possibilities[..k + 1][..k] == possibilities[..k];
  }

  /** The accepted possibilities pushed by the loop over `possibilities`. */
  method PushAccepted(record: ConditionsRecord, stack: seq<string>, possibilities: seq<string>) returns (pushed: seq<string>)
    ensures pushed == stack + Accepted(record, possibilities)
  {
    pushed := stack;
    for k := 0 to |possibilities|
      invariant pushed == stack + Accepted(record, possibilities[..k])
    {
      AcceptedStep(record, possibilities, k);
      var meetsCriteria := CheckIfMeetsCriteria(record, possibilities[k]);
      if meetsCriteria {
        pushed := pushed + [possibilities[k]];
      }
    }
    assert possibilities[..|possibilities|] == possibilities;
  }

  /** `ConditionsRecord.count_acceptable_arrangements`: 1, plus one for
      each accepted beginning with no '?' after it, found by a stack of
      beginnings that each fill the next '?' with '#' or '.'. */
  method CountAcceptableArrangements(record: ConditionsRecord) returns (count: int)
    ensures count == 1 + (if FindNextUnknownCondition(record, 0) == -1 then 0 else Arrangements(record, []))
  {
    var original := record.originalConditions;
    count := 1;
    var possibleBeginnings: seq<string> := [];
    var nextUnknownIndex := FindNextUnknownCondition(record, 0);
    if nextUnknownIndex != -1 {
      ChildrenAt(record, [], nextUnknownIndex);
      var possibilities := Possibilities(record, [], nextUnknownIndex);
      possibleBeginnings := PushAccepted(record, possibleBeginnings, possibilities);
    }
    assert possibleBeginnings == Children(record, []);
    ChildrenAreCandidates(record, []);
    PendingTotal(record, [], possibleBeginnings);
    while |possibleBeginnings| != 0
      invariant forall k :: 0 <= k < |possibleBeginnings| ==> Candidate(record, possibleBeginnings[k])
      invariant count + Pending(record, possibleBeginnings)
        == 1 + (if FindNextUnknownCondition(record, 0) == -1 then 0 else Arrangements(record, []))
      decreases PendingVisits(record, possibleBeginnings)
    {
      var complete;
      possibleBeginnings, complete := ExpandLast(record, possibleBeginnings);
      if complete {
        count := count + 1;
      }
    }
  }

  /** One round of the loop of `count_acceptable_arrangements`: pop the
      last beginning and push its accepted children, or report it complete
      when no '?' follows it. */
  method ExpandLast(record: ConditionsRecord, stack: seq<string>) returns (next: seq<string>, complete: bool)
    requires stack != []
    requires forall k :: 0 <= k < |stack| ==> Candidate(record, stack[k])
    ensures forall k :: 0 <= k < |next| ==> Candidate(record, next[k])
    ensures (if complete then 1 else 0) + Pending(record, next) == Pending(record, stack)
    ensures PendingVisits(record, next) < PendingVisits(record, stack)
  {
    var possibleBeginning := stack[|stack| - 1];
    var rest := stack[..|stack| - 1];
    Pop(record, stack);
    assert Candidate(record, possibleBeginning);
    next := rest;
    var currentIndex := |possibleBeginning|;
    var nextUnknownIndex := FindNextUnknownCondition(record, currentIndex);
    if nextUnknownIndex != -1 {
      ChildrenAt(record, possibleBeginning, nextUnknownIndex);
      var possibilities := Possibilities(record, possibleBeginning, nextUnknownIndex);
      next := PushAccepted(record, next, possibilities);
      Expand(record, rest, possibleBeginning);
      ExpandCandidates(record, rest, possibleBeginning);
      complete := false;
    } else {
      Leaf(record, possibleBeginning);
      complete := true;
    }
  }

  /** A beginning with no '?' after it completes an arrangement: with the
      original's remaining conditions it has no '?' and keeps every known
      condition of the original. */
  lemma {:induction false} LeafIsArrangement(record: ConditionsRecord, beginning: string)
    requires Candidate(record, beginning)
    requires FindNextUnknownCondition(record, |beginning|) == -1
    ensures var arrangement := PossibleDescription(record, beginning);
      |arrangement| == |record.originalConditions| && '?' !in arrangement
      && forall i :: 0 <= i < |arrangement| && record.originalConditions[i] != '?' ==> arrangement[i] == record.originalConditions[i]
  {
    var original := record.originalConditions;
    var arrangement := PossibleDescription(record, beginning);
    forall i | 0 <= i < |arrangement| ensures arrangement[i] != '?' && (original[i] != '?' ==> arrangement[i] == original[i]) {
      if i >= |beginning| {
        assert arrangement[i] == original[|beginning|..][i - |beginning|];
      }
    }
  }
}
