/** View identities and trail identities as text, and the lookup of a trail by its prefix. */
module Identity {
  import opened Orders
  import opened Results
  import opened Text

  datatype Bound = CommitBound | NodeBound

  datatype Usage = Usage(commitLimit: int, nodeLimit: int, commits: nat, nodes: nat, truncated: bool,
      reached: seq<Bound>)

  /** The widths of the fields. */
  predicate Representable(u: Usage) {
    IsI64(u.commitLimit) && IsI64(u.nodeLimit) && u.commits <= U64_MAX && u.nodes <= U64_MAX
  }

  // ---------------------------------------------------------------- view identities

  function BoundName(bound: Bound): string {
    match bound
    case CommitBound => "commit"
    case NodeBound => "node"
  }

  function BoundNames(bounds: seq<Bound>): seq<string> {
    seq(|bounds|, i requires 0 <= i < |bounds| => BoundName(bounds[i]))
  }

  function ParseBound(name: string): Option<Bound> {
    if name == "commit" then Some(CommitBound) else if name == "node" then Some(NodeBound) else None
  }

  function ParseBounds(names: seq<string>): Option<seq<Bound>> {
    if names == [] then Some([])
    else
      match ParseBound(names[0])
      case None => None
      case Some(first) =>
        match ParseBounds(names[1..])
        case None => None
        case Some(rest) => Some([first] + rest)
  }

  function BoolName(b: bool): string {
    if b then "true" else "false"
  }

  function ParseBool(s: string): Option<bool> {
    if s == "true" then Some(true) else if s == "false" then Some(false) else None
  }

  function ViewFront(u: Usage): seq<string> {
    ["v1", Decimal(u.commitLimit), Decimal(u.nodeLimit), Decimal(u.commits), Decimal(u.nodes), BoolName(u.truncated),
     Join(BoundNames(u.reached), ',')]
  }

  function ViewIdentity(u: Usage, boundary: Option<string>): string {
    Join(ViewFront(u), ':') + ":" + if boundary.Some? then boundary.value else ""
  }

  function FromViewIdentity(identity: string): Option<Usage> {
    var parts := Split(identity, ':');
    if |parts| != 8 || parts[0] != "v1" then None
    else
      var reached := if parts[6] == "" then Some([]) else ParseBounds(Split(parts[6], ','));
      var commitLimit, nodeLimit := ParseInt(parts[1]), ParseInt(parts[2]);
      var commits, nodes := ParseNat(parts[3], U64_MAX), ParseNat(parts[4], U64_MAX);
      var truncated := ParseBool(parts[5]);
      if reached.None? || commitLimit.None? || nodeLimit.None? || commits.None? || nodes.None? || truncated.None?
      then None
      else Some(Usage(commitLimit.value, nodeLimit.value, commits.value, nodes.value, truncated.value, reached.value))
  }

  lemma {:induction false} BoundsRoundTrip(bounds: seq<Bound>)
    ensures ParseBounds(BoundNames(bounds)) == Some(bounds)
  {
    if bounds != [] {
      BoundsRoundTrip(bounds[1..]);
      assert BoundNames(bounds)[1..] == BoundNames(bounds[1..]);
      assert ParseBound(BoundNames(bounds)[0]) == Some(bounds[0]);
      assert [bounds[0]] + bounds[1..] == bounds;
    }
  }

  lemma {:induction false} JoinLacks(parts: seq<string>, sep: char, other: char)
    requires AllLack(parts, other) && sep != other
    ensures Lacks(Join(parts, sep), other)
  {
    if |parts| > 1 {
      JoinLacks(parts[1..], sep, other);
    }
  }

  lemma {:induction false} NamesLack(bounds: seq<Bound>)
    ensures AllLack(BoundNames(bounds), ':') && AllLack(BoundNames(bounds), ',')
  {
  }

  lemma ViewFrontLacks(u: Usage)
    ensures AllLack(ViewFront(u), ':')
  {
    DecimalLacks(u.commitLimit, ':');
    DecimalLacks(u.nodeLimit, ':');
    DecimalLacks(u.commits, ':');
    DecimalLacks(u.nodes, ':');
    NamesLack(u.reached);
    JoinLacks(BoundNames(u.reached), ',', ':');
  }

  lemma {:induction false} OnePartExactly(s: string, sep: char)
    ensures |Split(s, sep)| == 1 <==> Lacks(s, sep)
  {
    if Lacks(s, sep) {
      SplitWhole(s, sep);
    }
    JoinOfSplit(s, sep);
  }

  lemma {:induction false} ReachedRoundTrip(bounds: seq<Bound>)
    ensures var text := Join(BoundNames(bounds), ',');
            (if text == "" then Some([]) else ParseBounds(Split(text, ','))) == Some(bounds)
  {
    NamesLack(bounds);
    if bounds != [] {
      SplitOfJoin(BoundNames(bounds), ',');
      BoundsRoundTrip(bounds);
      assert BoundNames(bounds)[0] == BoundName(bounds[0]);
    }
  }

  lemma ViewParts(u: Usage, boundary: Option<string>)
    ensures Split(ViewIdentity(u, boundary), ':')
         == ViewFront(u) + Split(if boundary.Some? then boundary.value else "", ':')
  {
    ViewFrontLacks(u);
    SplitOfPrefixed(ViewFront(u), if boundary.Some? then boundary.value else "", ':');
  }

  /** A view identity parses back to its usage if and only if the lower boundary holds no colon. */
  lemma ViewRoundTrip(u: Usage, boundary: Option<string>)
    requires Representable(u)
    ensures FromViewIdentity(ViewIdentity(u, boundary)) == Some(u)
       <==> Lacks(if boundary.Some? then boundary.value else "", ':')
  {
    hide Split, Join, Decimal, ParseInt, ParseNat, Lacks;
    var last := if boundary.Some? then boundary.value else "";
    ViewParts(u, boundary);
    OnePartExactly(last, ':');
    ReachedRoundTrip(u.reached);
    IntRoundTrip(u.commitLimit);
    IntRoundTrip(u.nodeLimit);
    NatDecimal(u.commits);
    NatDecimal(u.nodes);
  }

  lemma NatDecimal(n: nat)
    requires n <= U64_MAX
    ensures ParseNat(Decimal(n), U64_MAX) == Some(n)
  {
    NatRoundTrip(n, U64_MAX);
  }

  // ---------------------------------------------------------------- attention limits

  datatype Limit = Zero | Limited(n: nat) | Unlimited

  function AsI64(l: Limit): int {
    match l
    case Zero => 0
    case Limited(n) => if n <= I64_MAX then n else I64_MAX
    case Unlimited => -1
  }

  function ParseLimit(value: int): Option<Limit> {
    if value == -1 then Some(Unlimited) else if value > 0 then Some(Limited(value)) else None
  }

  /** Two limits share a code only if they are equal or both reach the largest signed value. */
  lemma CodesIdentifyLimits(a: Limit, b: Limit)
    requires a.Limited? ==> a.n > 0
    requires b.Limited? ==> b.n > 0
    ensures AsI64(a) == AsI64(b) <==> a == b || (a.Limited? && b.Limited? && a.n >= I64_MAX && b.n >= I64_MAX)
  {
  }

  /** Exactly -1 and positive values are limits; each keeps its value as its code, so parsed limits are told apart. */
  lemma ParsedLimitsKeepTheirCode(value: int, other: int)
    requires IsI64(value) && IsI64(other)
    ensures ParseLimit(value).None? <==> value == 0 || value < -1
    ensures ParseLimit(value).Some? ==> AsI64(ParseLimit(value).value) == value
    ensures ParseLimit(value).Some? && ParseLimit(other).Some? ==>
      (AsI64(ParseLimit(value).value) == AsI64(ParseLimit(other).value) <==> ParseLimit(value) == ParseLimit(other))
  {
  }

  // ---------------------------------------------------------------- trail identities

  datatype TrailIdentity = TrailIdentity(
    repo: int, head: string, commitLimit: Limit, nodeLimit: Limit, extension: string, protocol: nat, schema: nat)

  predicate Wide(t: TrailIdentity) {
    IsI64(t.repo) && t.protocol <= 0xFFFF_FFFF && t.schema <= 0xFFFF_FFFF
  }

  function Front(t: TrailIdentity): seq<string> {
    ["trail", Decimal(t.repo), t.head, Decimal(AsI64(t.commitLimit)), Decimal(AsI64(t.nodeLimit))]
  }

  function Back(t: TrailIdentity): seq<string> {
    [Decimal(t.protocol), Decimal(t.schema)]
  }

  function Key(t: TrailIdentity): string {
    Join(Front(t), ':') + ":" + t.extension + ":" + Join(Back(t), ':')
  }

  function TrailId(t: TrailIdentity, view: string): string {
    Key(t) + ":" + view
  }

  lemma FrontLacks(t: TrailIdentity)
    requires Lacks(t.head, ':')
    ensures AllLack(Front(t), ':')
  {
    DecimalLacks(t.repo, ':');
    DecimalLacks(AsI64(t.commitLimit), ':');
    DecimalLacks(AsI64(t.nodeLimit), ':');
  }

  lemma BackLacks(t: TrailIdentity)
    ensures AllLack(Back(t), ':')
  {
    DecimalLacks(t.protocol, ':');
    DecimalLacks(t.schema, ':');
  }

  lemma {:induction false} SplitConcat(a: string, b: string, sep: char)
    ensures Split(a + [sep] + b, sep) == Split(a, sep) + Split(b, sep)
  {
    JoinOfSplit(a, sep);
    SplitOfPrefixed(Split(a, sep), b, sep);
  }

  /** The parts of a trail id: five fixed ones, those of the extension, two fixed ones, those of the view. */
  lemma IdParts(t: TrailIdentity, view: string)
    requires Lacks(t.head, ':')
    ensures Split(TrailId(t, view), ':') == Front(t) + Split(t.extension, ':') + Back(t) + Split(view, ':')
  {
    hide Split, Join, Front, Back;
    FrontLacks(t);
    BackLacks(t);
    BackNotEmpty(t);
    var end := Join(Back(t), ':') + ":" + view;
    SplitOfPrefixed(Back(t), view, ':');
    SplitConcat(t.extension, end, ':');
    SplitOfPrefixed(Front(t), t.extension + ":" + end, ':');
    assert TrailId(t, view) == Join(Front(t), ':') + ":" + (t.extension + ":" + end);
    assert Front(t) + (Split(t.extension, ':') + (Back(t) + Split(view, ':')))
        == Front(t) + Split(t.extension, ':') + Back(t) + Split(view, ':');
  }

  lemma BackNotEmpty(t: TrailIdentity)
    ensures |Back(t)| == 2 && |Front(t)| == 5
  {
  }

  lemma SplitInjective(a: string, b: string, sep: char)
    requires Split(a, sep) == Split(b, sep)
    ensures a == b
  {
    JoinOfSplit(a, sep);
    JoinOfSplit(b, sep);
  }

  lemma {:induction false} SameParts(a: seq<string>, b: seq<string>, c: seq<string>, d: seq<string>, x: seq<string>,
      y: seq<string>, n: nat, m: nat)
    requires |a| == n && |c| == n && |b| == m && |d| == m && a + x + b == c + y + d
    ensures a == c && x == y && b == d
  {
    var all, other := a + x + b, c + y + d;
    assert |x| == |y|;
    assert all[..n] == a && other[..n] == c;
    assert all[n..n + |x|] == x && other[n..n + |x|] == y;
    assert all[n + |x|..] == b && other[n + |x|..] == d;
  }

  /**
   * Two trail ids over colon-free heads and views of eight parts are equal only if every component is, even when the
   * extension identities contain colons.
   */
  lemma TrailIdInjective(a: TrailIdentity, b: TrailIdentity, viewA: string, viewB: string)
    requires Wide(a) && Wide(b) && Lacks(a.head, ':') && Lacks(b.head, ':')
    requires |Split(viewA, ':')| == 8 && |Split(viewB, ':')| == 8
    requires TrailId(a, viewA) == TrailId(b, viewB)
    ensures a.repo == b.repo && a.head == b.head && a.extension == b.extension
    ensures a.protocol == b.protocol && a.schema == b.schema && viewA == viewB
    ensures AsI64(a.commitLimit) == AsI64(b.commitLimit) && AsI64(a.nodeLimit) == AsI64(b.nodeLimit)
  {
    hide Split, Join, Decimal, TrailId, Lacks;
    IdParts(a, viewA);
    IdParts(b, viewB);
    var va, vb := Split(viewA, ':'), Split(viewB, ':');
    var ea, eb := Split(a.extension, ':'), Split(b.extension, ':');
    assert Front(a) + ea + Back(a) + va == Front(a) + ea + (Back(a) + va);
    assert Front(b) + eb + Back(b) + vb == Front(b) + eb + (Back(b) + vb);
    SameParts(Front(a), Back(a) + va, Front(b), Back(b) + vb, ea, eb, 5, 10);
    SameParts(Back(a), [], Back(b), [], va, vb, 2, 0);
    assert Back(a) + va + [] == Back(a) + va && Back(b) + vb + [] == Back(b) + vb;
    SplitInjective(a.extension, b.extension, ':');
    SplitInjective(viewA, viewB, ':');
    FrontInjective(a, b);
    BackInjective(a, b);
  }

  lemma FrontInjective(a: TrailIdentity, b: TrailIdentity)
    requires IsI64(a.repo) && IsI64(b.repo) && Front(a) == Front(b)
    ensures a.repo == b.repo && a.head == b.head
    ensures AsI64(a.commitLimit) == AsI64(b.commitLimit) && AsI64(a.nodeLimit) == AsI64(b.nodeLimit)
  {
    hide Decimal;
    assert Front(a)[1] == Front(b)[1] && Front(a)[2] == Front(b)[2] && Front(a)[3] == Front(b)[3]
      && Front(a)[4] == Front(b)[4];
    DecimalInjective(a.repo, b.repo);
    DecimalInjective(AsI64(a.commitLimit), AsI64(b.commitLimit));
    DecimalInjective(AsI64(a.nodeLimit), AsI64(b.nodeLimit));
  }

  lemma BackInjective(a: TrailIdentity, b: TrailIdentity)
    requires Wide(a) && Wide(b) && Back(a) == Back(b)
    ensures a.protocol == b.protocol && a.schema == b.schema
  {
    hide Decimal;
    assert Back(a)[0] == Back(b)[0] && Back(a)[1] == Back(b)[1];
    DecimalInjective(a.protocol, b.protocol);
    DecimalInjective(a.schema, b.schema);
  }

  // ---------------------------------------------------------------- lookup

  /** A row of `trails`: its id is built from the identity its columns hold and its view. */
  datatype TrailRow = TrailRow(identity: TrailIdentity, view: string, legacy: bool)

  function IdOf(row: TrailRow): string {
    TrailId(row.identity, row.view)
  }

  predicate SameColumns(a: TrailIdentity, b: TrailIdentity) {
    a.repo == b.repo && a.head == b.head && a.extension == b.extension && a.protocol == b.protocol
      && a.schema == b.schema
  }

  predicate Matches(row: TrailRow, wanted: TrailIdentity) {
    !row.legacy && SameColumns(row.identity, wanted) && Key(wanted) + ":" <= IdOf(row)
  }

  predicate SameLimits(a: TrailIdentity, b: TrailIdentity) {
    AsI64(a.commitLimit) == AsI64(b.commitLimit) && AsI64(a.nodeLimit) == AsI64(b.nodeLimit)
  }

  /** The prefix of the id selects exactly the requested limits. */
  lemma PrefixSelectsLimits(row: TrailRow, wanted: TrailIdentity)
    requires Wide(wanted) && Lacks(wanted.head, ':') && SameColumns(row.identity, wanted)
    ensures Key(wanted) + ":" <= IdOf(row) <==> SameLimits(row.identity, wanted)
  {
    hide Split, Join, Decimal, Lacks;
    if SameLimits(row.identity, wanted) {
      assert Key(row.identity) == Key(wanted);
    }
    if Key(wanted) + ":" <= IdOf(row) {
      var rest := IdOf(row)[|Key(wanted)| + 1..];
      assert IdOf(row) == TrailId(wanted, rest);
      IdParts(wanted, rest);
      IdParts(row.identity, row.view);
      var x, y := Split(wanted.extension, ':') + Back(wanted) + Split(rest, ':'),
                  Split(row.identity.extension, ':') + Back(row.identity) + Split(row.view, ':');
      var parts := Split(IdOf(row), ':');
      assert parts == Front(wanted) + x && parts == Front(row.identity) + y;
      assert Front(wanted) == parts[..5] == Front(row.identity);
      FrontInjective(row.identity, wanted);
    }
  }

  /** `ORDER BY id LIMIT 1` over the matching rows. */
  method FindTrail(rows: seq<TrailRow>, wanted: TrailIdentity) returns (found: Option<TrailRow>)
    requires Wide(wanted) && Lacks(wanted.head, ':')
    ensures found.None? <==>
            forall row :: row in rows && !row.legacy && SameColumns(row.identity, wanted) ==>
              !SameLimits(row.identity, wanted)
    ensures found.Some? ==>
      && found.value in rows
      && !found.value.legacy && SameColumns(found.value.identity, wanted) && SameLimits(found.value.identity, wanted)
      && forall row :: row in rows && Matches(row, wanted) ==> !LexLess(IdOf(row), IdOf(found.value))
  {
    hide Key, TrailId, AsI64, Lacks, Wide, LexLess;
    found := None;
    for i := 0 to |rows|
      invariant found.None? <==> forall k :: 0 <= k < i ==> !Matches(rows[k], wanted)
      invariant found.Some? ==>
        && found.value in rows[..i]
        && Matches(found.value, wanted)
        && forall k :: 0 <= k < i && Matches(rows[k], wanted) ==> !LexLess(IdOf(rows[k]), IdOf(found.value))
    {
      ghost var before := found;
      if Matches(rows[i], wanted) && (found.None? || LexLess(IdOf(rows[i]), IdOf(found.value))) {
        found := Some(rows[i]);
        forall k | 0 <= k <= i && Matches(rows[k], wanted) ensures !LexLess(IdOf(rows[k]), IdOf(rows[i])) {
          LexIrreflexive(IdOf(rows[i]));
          if before.Some? && LexLess(IdOf(rows[k]), IdOf(rows[i])) {
            LexTransitive(IdOf(rows[k]), IdOf(rows[i]), IdOf(before.value));
          }
        }
      }
      assert rows[..i + 1] == rows[..i] + [rows[i]];
    }
    forall row | row in rows && !row.legacy && SameColumns(row.identity, wanted)
      ensures Matches(row, wanted) <==> SameLimits(row.identity, wanted)
    {
      PrefixSelectsLimits(row, wanted);
    }
    assert rows[..|rows|] == rows;
  }

  // ---------------------------------------------------------------- incremental use

  function AllowsIncremental(identity: string, commitLimit: Limit, nodeLimit: Limit): bool {
    var parts := Split(identity, ':');
    && |parts| == 8
    && parts[0] == "v1"
    && parts[1] == Decimal(AsI64(commitLimit))
    && parts[2] == Decimal(AsI64(nodeLimit))
    && parts[5] == "false"
  }

  /** A view may be extended exactly when it was complete and used the same limits. */
  lemma IncrementalMeansCompleteSameLimits(u: Usage, boundary: Option<string>, commitLimit: Limit, nodeLimit: Limit)
    requires Representable(u) && Lacks(if boundary.Some? then boundary.value else "", ':')
    ensures AllowsIncremental(ViewIdentity(u, boundary), commitLimit, nodeLimit)
       <==> !u.truncated && u.commitLimit == AsI64(commitLimit) && u.nodeLimit == AsI64(nodeLimit)
  {
    hide Split, Join, Decimal, Lacks;
    ViewParts(u, boundary);
    OnePartExactly(if boundary.Some? then boundary.value else "", ':');
    if AllowsIncremental(ViewIdentity(u, boundary), commitLimit, nodeLimit) {
      DecimalInjective(u.commitLimit, AsI64(commitLimit));
      DecimalInjective(u.nodeLimit, AsI64(nodeLimit));
    }
  }

  /**
   * Of the texts, exactly those of eight colon-separated parts pass that start `v1`, the two limits, and say complete.
   */
  lemma IncrementalExactly(identity: string, commitLimit: Limit, nodeLimit: Limit)
    ensures AllowsIncremental(identity, commitLimit, nodeLimit) <==>
      exists parts: seq<string> ::
        && |parts| == 8 && AllLack(parts, ':') && identity == Join(parts, ':')
        && parts[0] == "v1" && parts[1] == Decimal(AsI64(commitLimit)) && parts[2] == Decimal(AsI64(nodeLimit))
        && parts[5] == "false"
  {
    hide Split, Join, Decimal, AllLack;
    JoinOfSplit(identity, ':');
    forall parts: seq<string> | |parts| == 8 && AllLack(parts, ':') && identity == Join(parts, ':')
      ensures Split(identity, ':') == parts
    {
      SplitOfJoin(parts, ':');
    }
  }
}
