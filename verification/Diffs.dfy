/** The NUL-separated diff streams: one parser for a batch of commits, one for a single commit. */
module Diffs {
  import opened Results
  import opened Text

  datatype Change = Renamed(source: string, destination: string) | Deleted(path: string) | Changed(path: string)

  datatype DiffError = MissingSource | MissingDestination | InvalidStatus | MissingPath | HeaderChanged | ExtraOutput

  datatype Parsed<T> = Parsed(value: T, rest: seq<string>)

  predicate Moves(status: string) {
    status != "" && status[0] in {'R', 'C'}
  }

  predicate KnownStatus(status: string) {
    status != "" && status[0] in {'A', 'M', 'D', 'T', 'U', 'X', 'B'}
  }

  function PathChange(status: string, path: string): Change {
    if status != "" && status[0] == 'D' then Deleted(path) else Changed(path)
  }

  // ---------------------------------------------------------------- parsers

  /** The records of one commit, up to an empty token or the header of a later commit. */
  function ParseRecords(tokens: seq<string>, later: seq<string>): Result<Parsed<seq<Change>>, DiffError>
    decreases |tokens|
  {
    if tokens == [] || tokens[0] == "" || tokens[0] in later then Success(Parsed([], tokens))
    else if Moves(tokens[0]) then
      if |tokens| < 2 then Failure(MissingSource)
      else if |tokens| < 3 then Failure(MissingDestination)
      else Prefixed([Renamed(tokens[1], tokens[2])], ParseRecords(tokens[3..], later))
    else if !KnownStatus(tokens[0]) then Failure(InvalidStatus)
    else if |tokens| < 2 then Failure(MissingPath)
    else Prefixed([PathChange(tokens[0], tokens[1])], ParseRecords(tokens[2..], later))
  }

  function Prefixed<T>(front: seq<T>, r: Result<Parsed<seq<T>>, DiffError>): Result<Parsed<seq<T>>, DiffError> {
    match r
    case Failure(error) => Failure(error)
    case Success(parsed) => Success(Parsed(front + parsed.value, parsed.rest))
  }

  lemma {:induction false} PrefixedTwice<T>(a: seq<T>, b: seq<T>, r: Result<Parsed<seq<T>>, DiffError>)
    ensures Prefixed(a, Prefixed(b, r)) == Prefixed(a + b, r)
  {
    if r.Success? {
      assert a + (b + r.value.value) == a + b + r.value.value;
    }
  }

  lemma {:induction false} PrefixedNone<T>(r: Result<Parsed<seq<T>>, DiffError>)
    ensures Prefixed([], r) == r
  {
    if r.Success? {
      assert [] + r.value.value == r.value.value;
    }
  }

  function Next(tokens: seq<string>): string {
    if tokens == [] then "" else tokens[0]
  }

  /** The commits in caller order; a commit without a header has no changes. */
  function ParseCommits(tokens: seq<string>, shas: seq<string>): Result<Parsed<seq<seq<Change>>>, DiffError>
    decreases |shas|
  {
    if shas == [] then Success(Parsed([], tokens))
    else if tokens == [] || tokens[0] != shas[0] then
      if Next(tokens) != "" && Next(tokens) !in shas[1..] then Failure(HeaderChanged)
      else Prefixed([[]], ParseCommits(tokens, shas[1..]))
    else
      match ParseRecords(tokens[1..], shas[1..])
      case Failure(error) => Failure(error)
      case Success(parsed) => Prefixed([parsed.value], ParseCommits(parsed.rest, shas[1..]))
  }

  predicate Blank(tokens: seq<string>) {
    forall i :: 0 <= i < |tokens| ==> tokens[i] == ""
  }

  function ParseBatch(tokens: seq<string>, shas: seq<string>): Result<seq<seq<Change>>, DiffError> {
    match ParseCommits(tokens, shas)
    case Failure(error) => Failure(error)
    case Success(parsed) => if Blank(parsed.rest) then Success(parsed.value) else Failure(ExtraOutput)
  }

  function NonEmpty(tokens: seq<string>): seq<string> {
    if tokens == [] then []
    else (if tokens[0] == "" then [] else [tokens[0]]) + NonEmpty(tokens[1..])
  }

  /** `changed_paths`: empty fields are dropped first, and a status is not checked. */
  function ParseFields(fields: seq<string>): Result<seq<Change>, DiffError>
    decreases |fields|
  {
    if fields == [] then Success([])
    else if Moves(fields[0]) then
      if |fields| < 2 then Failure(MissingSource)
      else if |fields| < 3 then Failure(MissingDestination)
      else WithFront(Renamed(fields[1], fields[2]), ParseFields(fields[3..]))
    else if |fields| < 2 then Failure(MissingPath)
    else WithFront(PathChange(fields[0], fields[1]), ParseFields(fields[2..]))
  }

  function WithFront(change: Change, r: Result<seq<Change>, DiffError>): Result<seq<Change>, DiffError> {
    match r
    case Failure(error) => Failure(error)
    case Success(changes) => Success([change] + changes)
  }

  function ParseChangedPaths(tokens: seq<string>): Result<seq<Change>, DiffError> {
    ParseFields(NonEmpty(tokens))
  }

  // ---------------------------------------------------------------- what the streams list

  datatype Record = Moved(status: string, source: string, destination: string) | Touched(status: string, path: string)

  /** A commit is left out of the stream, or listed by its header and its records. */
  datatype Section = Omitted | Listed(records: seq<Record>)

  function RecordTokens(r: Record): seq<string> {
    match r
    case Moved(status, source, destination) => [status, source, destination]
    case Touched(status, path) => [status, path]
  }

  function RecordChange(r: Record): Change {
    match r
    case Moved(_, source, destination) => Renamed(source, destination)
    case Touched(status, path) => PathChange(status, path)
  }

  function RecordsTokens(records: seq<Record>): seq<string> {
    if records == [] then [] else RecordTokens(records[0]) + RecordsTokens(records[1..])
  }

  function RecordsChanges(records: seq<Record>): seq<Change> {
    if records == [] then [] else [RecordChange(records[0])] + RecordsChanges(records[1..])
  }

  function SectionChanges(s: Section): seq<Change> {
    match s
    case Omitted => []
    case Listed(records) => RecordsChanges(records)
  }

  function SectionTokens(sha: string, s: Section): seq<string> {
    match s
    case Omitted => []
    case Listed(records) => [sha] + RecordsTokens(records)
  }

  function Stream(shas: seq<string>, sections: seq<Section>): seq<string>
    requires |shas| == |sections|
  {
    if shas == [] then [] else SectionTokens(shas[0], sections[0]) + Stream(shas[1..], sections[1..])
  }

  function AllChanges(sections: seq<Section>): seq<seq<Change>> {
    if sections == [] then [] else [SectionChanges(sections[0])] + AllChanges(sections[1..])
  }

  /** A status of the right kind that is not the header of a later commit. */
  predicate ValidRecord(r: Record, later: seq<string>) {
    match r
    case Moved(status, _, _) => Moves(status) && status !in later
    case Touched(status, _) => KnownStatus(status) && status !in later
  }

  predicate ValidRecords(records: seq<Record>, later: seq<string>) {
    forall i :: 0 <= i < |records| ==> ValidRecord(records[i], later)
  }

  ghost predicate ValidSections(shas: seq<string>, sections: seq<Section>)
    requires |shas| == |sections|
  {
    forall i :: 0 <= i < |shas| && sections[i].Listed? ==> ValidRecords(sections[i].records, shas[i + 1..])
  }

  ghost predicate DistinctShas(shas: seq<string>) {
    && (forall i :: 0 <= i < |shas| ==> shas[i] != "")
    && forall i, j :: 0 <= i < j < |shas| ==> shas[i] != shas[j]
  }

  // ---------------------------------------------------------------- parsing what was listed

  predicate Stops(tail: seq<string>, later: seq<string>) {
    tail == [] || tail[0] == "" || tail[0] in later
  }

  lemma {:induction false} RecordStep(r: Record, later: seq<string>, rest: seq<string>)
    requires ValidRecord(r, later)
    ensures ParseRecords(RecordTokens(r) + rest, later) == Prefixed([RecordChange(r)], ParseRecords(rest, later))
  {
  }

  lemma {:induction false} RecordsRoundTrip(records: seq<Record>, later: seq<string>, tail: seq<string>)
    requires ValidRecords(records, later) && Stops(tail, later)
    ensures ParseRecords(RecordsTokens(records) + tail, later) == Success(Parsed(RecordsChanges(records), tail))
    decreases |records|
  {
    if records == [] {
      assert RecordsTokens(records) + tail == tail;
    } else {
      hide ParseRecords, RecordTokens, RecordChange, ValidRecord;
      var rest := RecordsTokens(records[1..]) + tail;
      RecordsRoundTrip(records[1..], later, tail);
      assert RecordsTokens(records) + tail == RecordTokens(records[0]) + rest;
      RecordStep(records[0], later, rest);
    }
  }

  lemma {:induction false} BlankStops(tail: seq<string>)
    requires Blank(tail)
    ensures Stops(tail, [])
  {
  }

  lemma {:induction false} ListedStarts(sha: string, s: Section, rest: seq<string>, tail: seq<string>)
    requires s.Listed?
    ensures (SectionTokens(sha, s) + rest + tail)[..1] == [sha]
  {
  }

  lemma {:induction false} StreamStarts(shas: seq<string>, sections: seq<Section>, tail: seq<string>)
    requires |shas| == |sections| && Blank(tail)
    ensures var tokens := Stream(shas, sections) + tail; Stops(tokens, shas)
    decreases |shas|
  {
    hide RecordsTokens, Blank;
    if shas != [] {
      var rest := Stream(shas[1..], sections[1..]) + tail;
      StreamStarts(shas[1..], sections[1..], tail);
      if sections[0].Omitted? {
        assert Stream(shas, sections) + tail == rest;
        assert shas == [shas[0]] + shas[1..];
      } else {
        ListedStarts(shas[0], sections[0], Stream(shas[1..], sections[1..]), tail);
      }
    } else {
      assert Stream(shas, sections) + tail == tail;
      BlankStops(tail);
    }
  }

  lemma {:induction false} ValidTail(shas: seq<string>, sections: seq<Section>)
    requires |shas| == |sections| && shas != [] && DistinctShas(shas) && ValidSections(shas, sections)
    ensures DistinctShas(shas[1..]) && ValidSections(shas[1..], sections[1..]) && shas[0] !in shas[1..]
  {
  }

  lemma {:induction false} OmittedStep(shas: seq<string>, rest: seq<string>)
    requires shas != [] && DistinctShas(shas) && Stops(rest, shas[1..])
    ensures ParseCommits(rest, shas) == Prefixed([[]], ParseCommits(rest, shas[1..]))
  {
  }

  lemma {:induction false} ListedStep(shas: seq<string>, records: seq<Record>, rest: seq<string>)
    requires shas != [] && ValidRecords(records, shas[1..]) && Stops(rest, shas[1..])
    ensures ParseCommits([shas[0]] + RecordsTokens(records) + rest, shas)
         == Prefixed([RecordsChanges(records)], ParseCommits(rest, shas[1..]))
  {
    hide ParseRecords, RecordsTokens, ValidRecords;
    var tokens := [shas[0]] + RecordsTokens(records) + rest;
    assert tokens[1..] == RecordsTokens(records) + rest;
    RecordsRoundTrip(records, shas[1..], rest);
  }

  lemma {:induction false} CommitsRoundTrip(shas: seq<string>, sections: seq<Section>, tail: seq<string>)
    requires |shas| == |sections| && DistinctShas(shas) && ValidSections(shas, sections) && Blank(tail)
    ensures ParseCommits(Stream(shas, sections) + tail, shas) == Success(Parsed(AllChanges(sections), tail))
    decreases |shas|
  {
    if shas == [] {
      assert Stream(shas, sections) + tail == tail;
    } else {
      hide ParseCommits, ValidRecords, DistinctShas, Stops;
      var rest := Stream(shas[1..], sections[1..]) + tail;
      ValidTail(shas, sections);
      CommitsRoundTrip(shas[1..], sections[1..], tail);
      StreamStarts(shas[1..], sections[1..], tail);
      match sections[0]
      case Omitted =>
        assert Stream(shas, sections) + tail == rest;
        OmittedStep(shas, rest);
      case Listed(records) =>
        assert Stream(shas, sections) + tail == [shas[0]] + RecordsTokens(records) + rest;
        assert shas[0 + 1..] == shas[1..];
        ListedStep(shas, records, rest);
    }
  }

  /** The batch parser returns each commit's own changes, in caller order. */
  lemma {:induction false} BatchRoundTrip(shas: seq<string>, sections: seq<Section>, tail: seq<string>)
    requires |shas| == |sections| && DistinctShas(shas) && ValidSections(shas, sections) && Blank(tail)
    ensures ParseBatch(Stream(shas, sections) + tail, shas) == Success(AllChanges(sections))
  {
    CommitsRoundTrip(shas, sections, tail);
  }

  /** What git prints: each token followed by a NUL. */
  function Output(tokens: seq<string>): string {
    Join(tokens + [""], '\0')
  }

  /** The same on the characters of git's output. */
  lemma {:induction false} OutputRoundTrip(shas: seq<string>, sections: seq<Section>)
    requires |shas| == |sections| && DistinctShas(shas) && ValidSections(shas, sections)
    requires AllLack(Stream(shas, sections), '\0')
    ensures ParseBatch(Split(Output(Stream(shas, sections)), '\0'), shas) == Success(AllChanges(sections))
  {
    var tokens := Stream(shas, sections);
    SplitOfJoin(tokens + [""], '\0');
    BatchRoundTrip(shas, sections, [""]);
  }

  // ---------------------------------------------------------------- whatever parses was listed

  lemma {:induction false} FirstRecord(tokens: seq<string>, later: seq<string>) returns (r: Record, n: nat)
    requires !Stops(tokens, later) && ParseRecords(tokens, later).Success?
    ensures 0 < n <= |tokens| && tokens == RecordTokens(r) + tokens[n..] && ValidRecord(r, later)
    ensures ParseRecords(tokens, later) == Prefixed([RecordChange(r)], ParseRecords(tokens[n..], later))
  {
    if Moves(tokens[0]) {
      r, n := Moved(tokens[0], tokens[1], tokens[2]), 3;
    } else {
      r, n := Touched(tokens[0], tokens[1]), 2;
    }
  }

  lemma {:induction false} RecordBefore(first: Record, rest: seq<Record>, later: seq<string>, end: seq<string>)
    requires ValidRecord(first, later) && ValidRecords(rest, later)
    ensures ValidRecords([first] + rest, later)
    ensures RecordsChanges([first] + rest) == [RecordChange(first)] + RecordsChanges(rest)
    ensures RecordsTokens([first] + rest) + end == RecordTokens(first) + (RecordsTokens(rest) + end)
  {
    hide ValidRecord, RecordTokens, RecordChange;
    assert ([first] + rest)[1..] == rest;
  }

  lemma {:induction false} RecordsAreListed(tokens: seq<string>, later: seq<string>) returns (records: seq<Record>)
    requires ParseRecords(tokens, later).Success?
    ensures var parsed := ParseRecords(tokens, later).value;
            && ValidRecords(records, later)
            && RecordsChanges(records) == parsed.value
            && tokens == RecordsTokens(records) + parsed.rest
            && Stops(parsed.rest, later)
    decreases |tokens|
  {
    if Stops(tokens, later) {
      records := [];
    } else {
      hide ParseRecords, RecordTokens, RecordChange, ValidRecord, ValidRecords, RecordsTokens, RecordsChanges, Stops;
      var first, n := FirstRecord(tokens, later);
      var rest := RecordsAreListed(tokens[n..], later);
      records := [first] + rest;
      RecordBefore(first, rest, later, ParseRecords(tokens, later).value.rest);
    }
  }

  lemma {:induction false} FirstSection(tokens: seq<string>, shas: seq<string>) returns (s: Section, left: seq<string>)
    requires shas != [] && ParseCommits(tokens, shas).Success?
    ensures s.Listed? ==> ValidRecords(s.records, shas[1..])
    ensures tokens == SectionTokens(shas[0], s) + left
    ensures ParseCommits(tokens, shas) == Prefixed([SectionChanges(s)], ParseCommits(left, shas[1..]))
  {
    hide ParseRecords, ValidRecords, RecordsTokens, RecordsChanges, Stops;
    s, left := Omitted, tokens;
    if tokens != [] && tokens[0] == shas[0] {
      var records := RecordsAreListed(tokens[1..], shas[1..]);
      s, left := Listed(records), ParseRecords(tokens[1..], shas[1..]).value.rest;
      assert tokens == [shas[0]] + tokens[1..];
    }
  }

  lemma {:induction false} SectionInFront(shas: seq<string>, first: Section, rest: seq<Section>, end: seq<string>)
    requires |shas| == |rest| + 1 && ValidSections(shas[1..], rest)
      && (first.Listed? ==> ValidRecords(first.records, shas[1..]))
    ensures ValidSections(shas, [first] + rest)
    ensures AllChanges([first] + rest) == [SectionChanges(first)] + AllChanges(rest)
    ensures Stream(shas, [first] + rest) + end == SectionTokens(shas[0], first) + (Stream(shas[1..], rest) + end)
  {
  }

  lemma {:induction false} CommitsAreListed(tokens: seq<string>, shas: seq<string>) returns (sections: seq<Section>)
    requires ParseCommits(tokens, shas).Success?
    ensures var parsed := ParseCommits(tokens, shas).value;
            && |sections| == |shas|
            && ValidSections(shas, sections)
            && AllChanges(sections) == parsed.value
            && tokens == Stream(shas, sections) + parsed.rest
    decreases |shas|
  {
    hide ValidRecords, SectionTokens, SectionChanges, ParseRecords;
    if shas == [] {
      sections := [];
    } else {
      var first, left := FirstSection(tokens, shas);
      var rest := CommitsAreListed(left, shas[1..]);
      sections := [first] + rest;
      SectionInFront(shas, first, rest, ParseCommits(tokens, shas).value.rest);
    }
  }

  ghost predicate Describes(tokens: seq<string>, shas: seq<string>, sections: seq<Section>, changes: seq<seq<Change>>) {
    && |sections| == |shas|
    && ValidSections(shas, sections)
    && AllChanges(sections) == changes
    && exists tail :: Blank(tail) && tokens == Stream(shas, sections) + tail
  }

  /** The batch parser accepts exactly the streams that list the commits in order, and returns what they list. */
  lemma {:induction false} BatchAcceptsExactly(tokens: seq<string>, shas: seq<string>, changes: seq<seq<Change>>)
    requires DistinctShas(shas)
    ensures ParseBatch(tokens, shas) == Success(changes) <==>
      exists sections :: Describes(tokens, shas, sections, changes)
  {
    if ParseBatch(tokens, shas) == Success(changes) {
      var sections := CommitsAreListed(tokens, shas);
      assert Blank(ParseCommits(tokens, shas).value.rest);
      assert Describes(tokens, shas, sections, changes);
    }
    if sections :| Describes(tokens, shas, sections, changes) {
      var tail :| Blank(tail) && tokens == Stream(shas, sections) + tail;
      BatchRoundTrip(shas, sections, tail);
    }
  }

  // ---------------------------------------------------------------- agreement with the single-commit parser

  predicate Named(tokens: seq<string>) {
    forall i :: 0 <= i < |tokens| ==> tokens[i] != ""
  }

  /** No path of a record is empty. */
  predicate NamedPaths(records: seq<Record>) {
    forall i :: 0 <= i < |records| ==> Named(RecordTokens(records[i]))
  }

  lemma {:induction false} NonEmptyKeeps(tokens: seq<string>, tail: seq<string>)
    requires Named(tokens) && Blank(tail)
    ensures NonEmpty(tokens + tail) == tokens
    decreases |tokens| + |tail|
  {
    if tokens == [] {
      assert tokens + tail == tail;
      if tail != [] {
        NonEmptyKeeps([], tail[1..]);
        assert [] + tail[1..] == tail[1..];
      }
    } else {
      assert (tokens + tail)[1..] == tokens[1..] + tail;
      NonEmptyKeeps(tokens[1..], tail);
    }
  }

  /** The records that a status R or C begins are those that move a path. */
  ghost predicate Sorted(records: seq<Record>) {
    forall r :: r in records ==> (r.Moved? <==> r.status != "" && (r.status[0] == 'R' || r.status[0] == 'C'))
  }

  /** What is left after the last whole record: nothing, a status, or a status R or C and one path. */
  ghost predicate Rest(rest: seq<string>) {
    || |rest| <= 1
    || (|rest| == 2 && rest[0] != "" && (rest[0][0] == 'R' || rest[0][0] == 'C'))
  }

  /** The fields are whole records and what is left after them. */
  lemma {:induction false} FieldsSplit(fields: seq<string>) returns (records: seq<Record>, rest: seq<string>)
    ensures Sorted(records) && Rest(rest) && fields == RecordsTokens(records) + rest
    decreases |fields|
  {
    records, rest := [], fields;
    if !Rest(fields) {
      var moves := fields[0] != "" && (fields[0][0] == 'R' || fields[0][0] == 'C');
      var r := if moves then Moved(fields[0], fields[1], fields[2]) else Touched(fields[0], fields[1]);
      var more, end := FieldsSplit(fields[if moves then 3 else 2..]);
      records, rest := [r] + more, end;
      assert records[1..] == more;
      assert fields == RecordTokens(r) + fields[if moves then 3 else 2..];
    }
  }

  /**
   * The single-commit parser, for any fields: it gives the changes of the whole records if nothing is left after them.
   * Else it fails: for want of the old path after a status R or C, of the new path after that and one path, and of the
   * path after any other status.
   */
  lemma {:induction false} FieldsParseExactly(records: seq<Record>, rest: seq<string>)
    requires Sorted(records) && Rest(rest)
    ensures var parsed, moves := ParseFields(RecordsTokens(records) + rest),
              |rest| > 0 && rest[0] != "" && (rest[0][0] == 'R' || rest[0][0] == 'C');
            && (rest == [] ==> parsed == Success(RecordsChanges(records)))
            && (|rest| == 1 && moves ==> parsed == Failure(MissingSource))
            && (|rest| == 2 ==> parsed == Failure(MissingDestination))
            && (|rest| == 1 && !moves ==> parsed == Failure(MissingPath))
    decreases |records|
  {
    hide ParseFields;
    if records == [] {
      RestParses(rest);
      assert RecordsTokens(records) + rest == rest;
    } else {
      var r, more := records[0], records[1..];
      FieldsParseExactly(more, rest);
      assert r in records;
      RecordParses(r, RecordsTokens(more) + rest);
      assert RecordsTokens(records) + rest == RecordTokens(r) + (RecordsTokens(more) + rest);
    }
  }

  lemma RestParses(rest: seq<string>)
    requires Rest(rest)
    ensures ParseFields(rest) ==
      if rest == [] then Success([])
      else if |rest| == 2 then Failure(MissingDestination)
      else if rest[0] != "" && (rest[0][0] == 'R' || rest[0][0] == 'C') then Failure(MissingSource)
      else Failure(MissingPath)
  {
  }

  lemma RecordParses(r: Record, others: seq<string>)
    requires r.Moved? <==> r.status != "" && (r.status[0] == 'R' || r.status[0] == 'C')
    ensures ParseFields(RecordTokens(r) + others) == WithFront(RecordChange(r), ParseFields(others))
  {
    var fields := RecordTokens(r) + others;
    match r
    case Moved(status, source, destination) =>
      assert fields[0] == status && fields[1] == source && fields[2] == destination && fields[3..] == others;
    case Touched(status, path) =>
      assert fields[0] == status && fields[1] == path && fields[2..] == others;
  }

  lemma {:induction false} FieldsRoundTrip(records: seq<Record>)
    requires forall i :: 0 <= i < |records| ==> (records[i].Moved? <==> Moves(records[i].status))
    ensures ParseFields(RecordsTokens(records)) == Success(RecordsChanges(records))
  {
    FieldsParseExactly(records, []);
    assert RecordsTokens(records) + [] == RecordsTokens(records);
  }

  /** The loop of `changed_paths`. */
  method ChangedPaths(tokens: seq<string>) returns (r: Result<seq<Change>, DiffError>)
    ensures r == ParseChangedPaths(tokens)
  {
    var fields, changes := NonEmpty(tokens), [];
    ghost var all := fields;
    NoneInFront(ParseFields(fields));
    while fields != []
      invariant ParseFields(all) == InFront(changes, ParseFields(fields))
      decreases |fields|
    {
      ghost var before := changes;
      var status := fields[0];
      if Moves(status) {
        if |fields| < 2 {
          return Failure(MissingSource);
        }
        if |fields| < 3 {
          return Failure(MissingDestination);
        }
        changes := changes + [Renamed(fields[1], fields[2])];
        fields := fields[3..];
      } else {
        if |fields| < 2 {
          return Failure(MissingPath);
        }
        changes := changes + [if status != "" && status[0] == 'D' then Deleted(fields[1]) else Changed(fields[1])];
        fields := fields[2..];
      }
      FrontInFront(before, changes[|before|], ParseFields(fields));
    }
    assert changes + [] == changes;
    return Success(changes);
  }

  function InFront(changes: seq<Change>, r: Result<seq<Change>, DiffError>): Result<seq<Change>, DiffError> {
    match r
    case Failure(error) => Failure(error)
    case Success(more) => Success(changes + more)
  }

  lemma NoneInFront(r: Result<seq<Change>, DiffError>)
    ensures InFront([], r) == r
  {
    if r.Success? {
      assert [] + r.value == r.value;
    }
  }

  lemma FrontInFront(changes: seq<Change>, change: Change, r: Result<seq<Change>, DiffError>)
    ensures InFront(changes, WithFront(change, r)) == InFront(changes + [change], r)
  {
    if r.Success? {
      assert changes + ([change] + r.value) == changes + [change] + r.value;
    }
  }

  lemma {:induction false} TokensAreNamed(records: seq<Record>)
    requires NamedPaths(records)
    ensures Named(RecordsTokens(records))
    decreases |records|
  {
    if records != [] {
      TokensAreNamed(records[1..]);
      assert Named(RecordTokens(records[0]));
    }
  }

  /** For one commit's records with named paths, `changed_paths` gives what the batch gives for that commit. */
  lemma {:induction false} SingleAgreesWithBatch(shas: seq<string>, sections: seq<Section>, i: nat,
      tail: seq<string>, end: seq<string>)
    requires |shas| == |sections| && DistinctShas(shas) && ValidSections(shas, sections) && Blank(tail) && Blank(end)
    requires i < |shas| && (sections[i].Listed? ==> NamedPaths(sections[i].records))
    ensures var batch := ParseBatch(Stream(shas, sections) + tail, shas);
            var alone := if sections[i].Omitted? then [] else RecordsTokens(sections[i].records);
            && batch.Success? && i < |batch.value|
            && ParseChangedPaths(alone + end) == Success(batch.value[i])
  {
    BatchRoundTrip(shas, sections, tail);
    ChangesAt(sections, i);
    match sections[i]
    case Omitted =>
      NonEmptyKeeps([], end);
    case Listed(records) =>
      assert ValidRecords(records, shas[i + 1..]);
      forall k | 0 <= k < |records| ensures records[k].Moved? <==> Moves(records[k].status) {
        assert ValidRecord(records[k], shas[i + 1..]);
      }
      TokensAreNamed(records);
      NonEmptyKeeps(RecordsTokens(records), end);
      FieldsRoundTrip(records);
  }

  lemma {:induction false} ChangesAt(sections: seq<Section>, i: nat)
    requires i < |sections|
    ensures |AllChanges(sections)| == |sections| && AllChanges(sections)[i] == SectionChanges(sections[i])
    decreases |sections|
  {
    if i > 0 {
      ChangesAt(sections[1..], i - 1);
    } else if |sections| > 1 {
      ChangesAt(sections[1..], 0);
    }
  }

  // ---------------------------------------------------------------- the loops

  /** The nested loops of `commits_batch` over token positions. */
  method CommitsBatch(tokens: seq<string>, shas: seq<string>) returns (r: Result<seq<seq<Change>>, DiffError>)
    ensures r == ParseBatch(tokens, shas)
  {
    hide ParseRecords;
    var position, changes := 0, [];
    assert tokens[0..] == tokens && shas[0..] == shas;
    PrefixedNone(ParseCommits(tokens, shas));
    for index := 0 to |shas|
      invariant position <= |tokens|
      invariant ParseCommits(tokens, shas) == Prefixed(changes, ParseCommits(tokens[position..], shas[index..]))
    {
      var later := shas[index + 1..];
      assert shas[index..][1..] == later && shas[index..][0] == shas[index];
      ghost var here := tokens[position..];
      var next := if position < |tokens| then tokens[position] else "";
      if position >= |tokens| || next != shas[index] {
        if next != "" && next !in later {
          return Failure(HeaderChanged);
        }
        PrefixedTwice(changes, [[]], ParseCommits(here, later));
        changes := changes + [[]];
        continue;
      }
      position := position + 1;
      assert here[1..] == tokens[position..];
      var mine, end := ReadRecords(tokens, later, position);
      match mine
      case Failure(error) =>
        return Failure(error);
      case Success(list) =>
        PrefixedTwice(changes, [list], ParseCommits(tokens[end..], later));
        changes := changes + [list];
        position := end;
    }
    assert shas[|shas|..] == [] && changes + [] == changes;
    assert ParseCommits(tokens, shas) == Success(Parsed(changes, tokens[position..]));
    if forall i :: position <= i < |tokens| ==> tokens[i] == "" {
      r := Success(changes);
    } else {
      r := Failure(ExtraOutput);
    }
  }

  /** One step of the inner loop. */
  lemma {:induction false} RecordAt(tokens: seq<string>, later: seq<string>, p: nat)
    requires p < |tokens| && tokens[p] != "" && tokens[p] !in later
    ensures ParseRecords(tokens[p..], later) ==
      if Moves(tokens[p]) then
        if p + 1 >= |tokens| then Failure(MissingSource)
        else if p + 2 >= |tokens| then Failure(MissingDestination)
        else Prefixed([Renamed(tokens[p + 1], tokens[p + 2])], ParseRecords(tokens[p + 3..], later))
      else if !KnownStatus(tokens[p]) then Failure(InvalidStatus)
      else if p + 1 >= |tokens| then Failure(MissingPath)
      else Prefixed([PathChange(tokens[p], tokens[p + 1])], ParseRecords(tokens[p + 2..], later))
  {
    hide Moves, KnownStatus, PathChange, Prefixed;
    var here := tokens[p..];
    if |here| >= 3 {
      assert here[3..] == tokens[p + 3..];
    }
    if |here| >= 2 {
      assert here[2..] == tokens[p + 2..];
    }
  }

  lemma {:induction false} NoRecordAt(tokens: seq<string>, later: seq<string>, p: nat)
    requires p <= |tokens| && (p < |tokens| ==> tokens[p] == "" || tokens[p] in later)
    ensures ParseRecords(tokens[p..], later) == Success(Parsed([], tokens[p..]))
  {
  }

  /** The inner loop, from `start` up to the next header or an empty token. */
  method ReadRecords(tokens: seq<string>, later: seq<string>, start: nat)
    returns (r: Result<seq<Change>, DiffError>, end: nat)
    requires start <= |tokens|
    ensures start <= end <= |tokens|
    ensures ParseRecords(tokens[start..], later)
         == match r case Failure(error) => Failure(error) case Success(list) => Success(Parsed(list, tokens[end..]))
  {
    hide ParseRecords;
    var position, mine: seq<Change> := start, [];
    PrefixedNone(ParseRecords(tokens[start..], later));
    while position < |tokens| && tokens[position] != "" && tokens[position] !in later
      invariant start <= position <= |tokens|
      invariant ParseRecords(tokens[start..], later) == Prefixed(mine, ParseRecords(tokens[position..], later))
      decreases |tokens| - position
    {
      var status := tokens[position];
      RecordAt(tokens, later, position);
      position := position + 1;
      if Moves(status) {
        if position >= |tokens| {
          return Failure(MissingSource), position;
        }
        if position + 1 >= |tokens| {
          return Failure(MissingDestination), position;
        }
        PrefixedTwice(mine, [Renamed(tokens[position], tokens[position + 1])],
                      ParseRecords(tokens[position + 2..], later));
        mine := mine + [Renamed(tokens[position], tokens[position + 1])];
        position := position + 2;
      } else {
        if !KnownStatus(status) {
          return Failure(InvalidStatus), position;
        }
        if position >= |tokens| {
          return Failure(MissingPath), position;
        }
        PrefixedTwice(mine, [PathChange(status, tokens[position])], ParseRecords(tokens[position + 1..], later));
        mine := mine + [PathChange(status, tokens[position])];
        position := position + 1;
      }
    }
    NoRecordAt(tokens, later, position);
    assert mine + [] == mine;
    return Success(mine), position;
  }

  // ---------------------------------------------------------------- which status means what

  /** A status R or C moves a path to another, D deletes it, and A, M, T, U, X or B changes it. */
  ghost predicate Means(r: Record, change: Change) {
    match r
    case Moved(_, source, destination) => change == Renamed(source, destination)
    case Touched(status, path) =>
      && (status != "" && status[0] == 'D' ==> change == Deleted(path))
      && (status == "" || status[0] != 'D' ==> change == Changed(path))
  }

  lemma {:induction false} ChangesMean(records: seq<Record>, k: nat)
    requires k < |records|
    ensures |RecordsChanges(records)| == |records| && Means(records[k], RecordsChanges(records)[k])
    decreases |records|
  {
    AsManyChanges(records);
    if k > 0 {
      ChangesMean(records[1..], k - 1);
    }
  }

  /**
   * Parsing a listed stream gives, for each listed commit in caller order, one change for each of its records, as its
   * status says, and no change for a commit that is left out.
   */
  lemma {:induction false} StreamMeans(shas: seq<string>, sections: seq<Section>, tail: seq<string>, i: nat)
    requires |shas| == |sections| && DistinctShas(shas) && ValidSections(shas, sections) && Blank(tail) && i < |shas|
    ensures var parsed := ParseBatch(Stream(shas, sections) + tail, shas);
            && parsed.Success? && |parsed.value| == |shas|
            && (sections[i].Omitted? ==> parsed.value[i] == [])
            && (sections[i].Listed? ==>
                  && |parsed.value[i]| == |sections[i].records|
                  && forall k :: 0 <= k < |sections[i].records| ==> Means(sections[i].records[k], parsed.value[i][k]))
  {
    hide ParseBatch, Stream, Means, AllChanges, RecordsChanges;
    BatchRoundTrip(shas, sections, tail);
    ChangesAt(sections, i);
    if sections[i].Listed? {
      var records := sections[i].records;
      AsManyChanges(records);
      assert SectionChanges(sections[i]) == RecordsChanges(records);
      forall k | 0 <= k < |records| ensures Means(records[k], RecordsChanges(records)[k]) {
        ChangesMean(records, k);
      }
    }
  }

  lemma {:induction false} AsManyChanges(records: seq<Record>)
    ensures |RecordsChanges(records)| == |records|
    decreases |records|
  {
    if records != [] {
      AsManyChanges(records[1..]);
    }
  }
}
