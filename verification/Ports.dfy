/**
 * Two port allocators. The project registry proposes the least aligned block that is free; the test-deployment
 * allocator hands out one port per slug, from which two more are derived at fixed distances.
 */
module Ports {
  import opened Prelude
  import opened Text

  // ---------------------------------------------------------------- project registry

  datatype Project = Project(backend: Option<int>, frontend: Option<int>, db: Option<int>)

  datatype BlockError = BadSize | NoFreeBlock

  function PortsOf(p: Project): set<int> {
    (if p.backend.Some? then {p.backend.value} else {})
    + (if p.frontend.Some? then {p.frontend.value} else {})
    + (if p.db.Some? then {p.db.value} else {})
  }

  predicate IsUsed(projects: seq<Project>, port: int) {
    exists i :: 0 <= i < |projects| && port in PortsOf(projects[i])
  }

  /** A reserved range; an entry that does not parse reserves nothing. */
  type Reservation = Option<(int, int)>

  /** Python's `int` on a string; it raises for `None`. */
  type Number = string -> Option<int>

  /** `split` at every `c`, looking from `i` on. */
  function SplitAt(s: string, c: char, i: nat): (r: seq<string>)
    requires i <= |s|
    decreases |s| - i, |s|
  {
    if i == |s| then [s]
    else if s[i] == c then [s[..i]] + SplitAt(s[i + 1..], c, 0)
    else SplitAt(s, c, i + 1)
  }

  /** One entry of the setting: two numbers around the first hyphen. */
  function RangeOf(spec: string, number: Number): Reservation {
    var t := Strip(spec);
    match FindChar(t, '-', 0)
    case None => None
    case Some(k) => Bounds(number(Strip(t[..k])), number(Strip(t[k + 1..])))
  }

  function Bounds(low: Option<int>, high: Option<int>): Reservation {
    if low.Some? && high.Some? then Some((low.value, high.value)) else None
  }

  /** What the comma-separated setting reserves. */
  function Reservations(csv: string, number: Number): seq<Reservation> {
    Each(SplitAt(csv, ',', 0), spec => RangeOf(spec, number))
  }

  predicate IsReserved(reserved: seq<Reservation>, port: int) {
    exists i :: 0 <= i < |reserved| && reserved[i].Some? && reserved[i].value.0 <= port <= reserved[i].value.1
  }

  predicate Blocked(projects: seq<Project>, reserved: seq<Reservation>, port: int) {
    IsUsed(projects, port) || IsReserved(reserved, port)
  }

  /** The block that starts at `base` lies below the upper limit and holds no blocked port. */
  ghost predicate FreeBlock(projects: seq<Project>, reserved: seq<Reservation>, base: int, size: int, max: int) {
    base + size - 1 <= max && forall port :: base <= port < base + size ==> !Blocked(projects, reserved, port)
  }

  /** Python's `range`, as a set. */
  function Range(low: int, high: int): (r: set<int>)
    ensures forall x :: x in r <==> low <= x < high
    decreases high - low
  {
    if low >= high then {} else {low} + Range(low + 1, high)
  }

  /** The `k`-th block. */
  function Base(min: int, size: int, k: int): int {
    min + k * size
  }

  lemma NextBase(min: int, size: int, k: int)
    ensures Base(min, size, k + 1) == Base(min, size, k) + size
  {
  }

  /** Different blocks do not overlap. */
  lemma {:induction false} BlocksApart(min: int, size: int, j: int, k: int)
    requires j < k && size > 0
    ensures Base(min, size, j) + size <= Base(min, size, k)
    decreases k - j
  {
    NextBase(min, size, k - 1);
    if j < k - 1 {
      BlocksApart(min, size, j, k - 1);
    }
  }

  /** The `k`-th block is free, and no block before it is. */
  ghost predicate FirstFree(projects: seq<Project>, reserved: seq<Reservation>, min: int, size: int, max: int, k: int) {
    && 0 <= k && FreeBlock(projects, reserved, Base(min, size, k), size, max)
    && NoneBefore(projects, reserved, min, size, max, k)
  }

  ghost predicate NoneBefore(
      projects: seq<Project>, reserved: seq<Reservation>, min: int, size: int, max: int, k: int) {
    forall j :: 0 <= j < k ==> !FreeBlock(projects, reserved, Base(min, size, j), size, max)
  }

  /** A block in range is free exactly when it is disjoint from the blocked ports. */
  lemma FreeIff(
      projects: seq<Project>, reserved: seq<Reservation>, blocked: set<int>, base: int, size: int, max: int)
    requires forall port :: port in blocked <==> Blocked(projects, reserved, port)
    requires base + size - 1 <= max
    ensures FreeBlock(projects, reserved, base, size, max) <==> blocked !! Range(base, base + size)
  {
    if FreeBlock(projects, reserved, base, size, max) {
      forall port | port in blocked ensures port !in Range(base, base + size) {
        assert Blocked(projects, reserved, port);
      }
    }
    if blocked !! Range(base, base + size) {
      forall port | base <= port < base + size ensures !Blocked(projects, reserved, port) {
        assert port in Range(base, base + size);
      }
    }
  }

  /** Behind a block that leaves the range there is no free one. */
  lemma NoneBehind(projects: seq<Project>, reserved: seq<Reservation>, min: int, size: int, max: int, k: nat)
    requires size > 0 && Base(min, size, k) + size - 1 > max && NoneBefore(projects, reserved, min, size, max, k)
    ensures forall j :: 0 <= j ==> !FreeBlock(projects, reserved, Base(min, size, j), size, max)
  {
    forall j | 0 <= j ensures !FreeBlock(projects, reserved, Base(min, size, j), size, max) {
      if j > k {
        BlocksApart(min, size, k, j);
      }
    }
  }

  class PortRegistry {
    var projects: seq<Project>
    var csv: string

    /** `_get_all_used_ports`. */
    method UsedPorts() returns (used: set<int>)
      ensures forall port :: port in used <==> IsUsed(projects, port)
      ensures forall port :: port in used <==>
        exists i :: 0 <= i < |projects| && Some(port) in [projects[i].backend, projects[i].frontend, projects[i].db]
    {
      used := {};
      for i := 0 to |projects|
        invariant forall port :: port in used <==> IsUsed(projects[..i], port)
      {
        UsedSnoc(projects, i);
        used := used + PortsOf(projects[i]);
      }
      assert projects[..|projects|] == projects;
    }

    /** `_get_reserved_ports`. */
    method ReservedPorts(number: Number) returns (blocked: set<int>)
      ensures forall port :: port in blocked <==> IsReserved(Reservations(csv, number), port)
    {
      if csv == "" {
        EmptyReservesNothing(number);
        return {};
      }
      var specs := SplitAt(csv, ',', 0);
      ghost var reserved := Reservations(csv, number);
      blocked := {};
      for i := 0 to |specs|
        invariant forall port :: port in blocked <==> IsReserved(reserved[..i], port)
      {
        ReservedSnoc(reserved, i);
        blocked := blocked + Covered(RangeOf(specs[i], number));
      }
      assert reserved[..|reserved|] == reserved;
    }

    /** `suggest_next_port_block`: the least aligned free block; an error exactly when there is none. */
    method SuggestBlock(min: int, max: int, size: int, number: Number) returns (r: Result<int, BlockError>)
      ensures size <= 0 <==> r == Err(BadSize)
      ensures r.Ok? ==> Suggested(projects, Reservations(csv, number), min, size, max, r.value)
      ensures r == Err(NoFreeBlock) ==>
        forall j :: 0 <= j ==> !FreeBlock(projects, Reservations(csv, number), Base(min, size, j), size, max)
    {
      if size <= 0 {
        return Err(BadSize);
      }
      ghost var reserved := Reservations(csv, number);
      var used := UsedPorts();
      var others := ReservedPorts(number);
      var blocked := used + others;
      var base := min;
      ghost var k := 0;
      while base < max + 1 && base + size - 1 <= max
        invariant 0 <= k && base == Base(min, size, k)
        invariant NoneBefore(projects, reserved, min, size, max, k)
        decreases max - base
      {
        FreeIff(projects, reserved, blocked, base, size, max);
        if blocked !! Range(base, base + size) {
          assert FirstFree(projects, reserved, min, size, max, k);
          return Ok(base);
        }
        NextBase(min, size, k);
        base, k := base + size, k + 1;
      }
      NoneBehind(projects, reserved, min, size, max, k);
      r := Err(NoFreeBlock);
    }

    /** A project takes the block that is suggested, and at least one port of it. */
    method TakeBlock(min: int, max: int, size: int, number: Number, wanted: Project) returns (base: Option<int>)
      requires Fits(wanted, size)
      modifies this`projects
      ensures base.None? ==> projects == old(projects)
      ensures base.Some? ==>
        && |projects| == |old(projects)| + 1 && projects[..|old(projects)|] == old(projects)
        && (wanted.backend.Some? ==> projects[|old(projects)|].backend == Some(base.value + wanted.backend.value))
        && (wanted.frontend.Some? ==> projects[|old(projects)|].frontend == Some(base.value + wanted.frontend.value))
        && (wanted.db.Some? ==> projects[|old(projects)|].db == Some(base.value + wanted.db.value))
      ensures base.Some? ==>
        && (wanted.backend.None? ==> projects[|old(projects)|].backend.None?)
        && (wanted.frontend.None? ==> projects[|old(projects)|].frontend.None?)
        && (wanted.db.None? ==> projects[|old(projects)|].db.None?)
      ensures base.Some? ==>
        RegistryDoes(old(projects), Take(wanted, Reservations(csv, number), max, base.value), projects, min, size)
    {
      var r := SuggestBlock(min, max, size, number);
      if r.Err? {
        return None;
      }
      base := Some(r.value);
      projects := projects + [Placed(wanted, r.value)];
    }
  }

  /** The project asks for some ports of one block, given relative to its base. */
  predicate Fits(wanted: Project, size: int) {
    && (exists port :: port in PortsOf(wanted))
    && forall port :: port in PortsOf(wanted) ==> 0 <= port < size
  }

  lemma UsedSnoc(projects: seq<Project>, i: nat)
    requires i < |projects|
    ensures forall port ::
      IsUsed(projects[..i + 1], port) <==> IsUsed(projects[..i], port) || port in PortsOf(projects[i])
  {
    assert projects[..i + 1] == projects[..i] + [projects[i]];
    forall port | port in PortsOf(projects[i]) ensures IsUsed(projects[..i + 1], port) {
      assert projects[..i + 1][i] == projects[i];
    }
  }

  lemma ReservedSnoc(reserved: seq<Reservation>, i: nat)
    requires i < |reserved|
    ensures forall port ::
      IsReserved(reserved[..i + 1], port) <==> IsReserved(reserved[..i], port) || IsReserved([reserved[i]], port)
  {
    assert reserved[..i + 1] == reserved[..i] + [reserved[i]];
    forall port | IsReserved([reserved[i]], port) ensures IsReserved(reserved[..i + 1], port) {
      assert reserved[..i + 1][i] == reserved[i];
    }
  }

  /** The ports of one reserved range. */
  function Covered(r: Reservation): (ports: set<int>)
    ensures forall port :: port in ports <==> IsReserved([r], port)
  {
    assert [r][0] == r;
    if r.Some? && r.value.0 <= r.value.1 then Range(r.value.0, r.value.1 + 1) else {}
  }

  lemma EmptyReservesNothing(number: Number)
    ensures forall port :: !IsReserved(Reservations("", number), port)
  {
    var reserved := Reservations("", number);
    assert SplitAt("", ',', 0) == [""] && RangeOf("", number) == None;
    assert |reserved| == 1 && reserved[0] == None;
  }

  // ---------------------------------------------------------------- the setting read back

  /** An entry as an operator writes it. */
  function EntryOf(low: string, high: string): string {
    low + "-" + high
  }

  function JoinedBy(parts: seq<string>, c: char): string {
    if |parts| == 0 then "" else if |parts| == 1 then parts[0] else parts[0] + [c] + JoinedBy(parts[1..], c)
  }

  /** The entries of the setting, each with its two numbers. */
  function Setting(entries: seq<(string, string)>): string {
    JoinedBy(Each(entries, (e: (string, string)) => EntryOf(e.0, e.1)), ',')
  }

  /** No separator is part of a number, and no white space surrounds it. */
  predicate Written(e: (string, string)) {
    '-' !in e.0 && ',' !in e.0 && ',' !in e.1 && Strip(e.0) == e.0 && Strip(e.1) == e.1
  }

  /** An entry reads as the two numbers it was written with. */
  lemma EntryRead(low: string, high: string, number: Number)
    requires Written((low, high))
    ensures
      var first, last := number(low), number(high);
      RangeOf(EntryOf(low, high), number)
        == if first.Some? && last.Some? then Some((first.value, last.value)) else None
  {
    var e := EntryOf(low, high);
    assert low == "" || e[0] == low[0];
    assert high == "" || e[|e| - 1] == high[|high| - 1];
    StripStripped(e);
    assert e[|low|] == '-' && e[..|low|] == low && e[|low| + 1..] == high;
    HyphenFound(e, |low|, 0);
  }

  lemma {:induction false} HyphenFound(s: string, k: nat, i: nat)
    requires i <= k < |s| && s[k] == '-' && '-' !in s[..k]
    ensures FindChar(s, '-', i) == Some(k)
    decreases k - i
  {
    if i < k {
      assert s[i] == s[..k][i];
      HyphenFound(s, k, i + 1);
    }
  }

  /** The range of each entry, from its first number to its last; an entry without two numbers has none. */
  ghost predicate AsWritten(reserved: seq<Reservation>, entries: seq<(string, string)>, number: Number) {
    && |reserved| == |entries|
    && forall i :: 0 <= i < |entries| ==>
         var (first, last) := (number(entries[i].0), number(entries[i].1));
         reserved[i] == if first.Some? && last.Some? then Some((first.value, last.value)) else None
  }

  /** A setting written as a list of ranges reserves these ranges. */
  lemma {:induction false} SettingRead(entries: seq<(string, string)>, number: Number)
    requires entries != [] && forall i :: 0 <= i < |entries| ==> Written(entries[i])
    ensures AsWritten(Reservations(Setting(entries), number), entries, number)
  {
    var parts := Each(entries, (e: (string, string)) => EntryOf(e.0, e.1));
    forall i | 0 <= i < |parts| ensures ',' !in parts[i] {
    }
    JoinedSplit(parts, ',');
    var reserved := Reservations(Setting(entries), number);
    forall i | 0 <= i < |entries| ensures reserved[i] == RangeOf(parts[i], number) {
    }
    forall i | 0 <= i < |entries| {
      EntryRead(entries[i].0, entries[i].1, number);
    }
  }

  lemma {:induction false} JoinedSplit(parts: seq<string>, c: char)
    requires parts != [] && forall i :: 0 <= i < |parts| ==> c !in parts[i]
    ensures SplitAt(JoinedBy(parts, c), c, 0) == parts
  {
    if |parts| == 1 {
      SplitSkips(parts[0], c, "", 0);
      assert parts[0] + "" == parts[0];
    } else {
      var rest := JoinedBy(parts[1..], c);
      JoinedSplit(parts[1..], c);
      SplitSkips(parts[0], c, [c] + rest, 0);
      var s := parts[0] + ([c] + rest);
      assert s == JoinedBy(parts, c);
      assert s[..|parts[0]|] == parts[0] && s[|parts[0]| + 1..] == rest;
    }
  }

  /** The search for a separator passes over a part without one. */
  lemma {:induction false} SplitSkips(part: string, c: char, rest: string, i: nat)
    requires c !in part && i <= |part|
    ensures SplitAt(part + rest, c, i) == SplitAt(part + rest, c, |part|)
    decreases |part| - i
  {
    if i < |part| {
      assert (part + rest)[i] == part[i];
      SplitSkips(part, c, rest, i + 1);
    }
  }

  /** Splitting gives parts without the separator, which joined again are the text. */
  lemma {:induction false} SplitJoined(s: string, c: char, i: nat)
    requires i <= |s| && c !in s[..i]
    ensures SplitAt(s, c, i) != [] && JoinedBy(SplitAt(s, c, i), c) == s
    ensures forall part :: part in SplitAt(s, c, i) ==> c !in part
    decreases |s| - i, |s|
  {
    if i == |s| {
      assert s[..i] == s;
    } else if s[i] == c {
      SplitJoined(s[i + 1..], c, 0);
      assert SplitAt(s, c, i)[1..] == SplitAt(s[i + 1..], c, 0);
      assert s == s[..i] + [c] + s[i + 1..];
    } else {
      assert s[..i + 1] == s[..i] + [s[i]];
      SplitJoined(s, c, i + 1);
    }
  }

  function Shifted(port: Option<int>, base: int): Option<int> {
    if port.Some? then Some(base + port.value) else None
  }

  /** A project whose ports are given relative to its block. */
  function Placed(p: Project, base: int): Project {
    Project(Shifted(p.backend, base), Shifted(p.frontend, base), Shifted(p.db, base))
  }

  // ---------------------------------------------------------------- runs of the registry

  /** The least aligned base whose block is free. */
  ghost predicate Suggested(
      projects: seq<Project>, reserved: seq<Reservation>, min: int, size: int, max: int, base: int) {
    exists k :: FirstFree(projects, reserved, min, size, max, k) && base == Base(min, size, k)
  }

  /**
   * A project takes the block that is suggested, whatever is reserved and however far the range goes by then; or
   * projects are added, edited or deleted in any other way.
   */
  datatype RegistryStep =
    | Take(wanted: Project, reserved: seq<Reservation>, max: int, base: int)
    | Other

  ghost predicate RegistryDoes(
      before: seq<Project>, step: RegistryStep, after: seq<Project>, min: int, size: int) {
    match step
    case Take(wanted, reserved, max, base) =>
      && size > 0 && Fits(wanted, size) && Suggested(before, reserved, min, size, max, base)
      && after == before + [Placed(wanted, base)]
    case Other => true
  }

  ghost predicate RegistryRuns(states: seq<seq<Project>>, steps: seq<RegistryStep>, min: int, size: int) {
    && |states| == |steps| + 1
    && forall i :: 0 <= i < |steps| ==> RegistryDoes(states[i], steps[i], states[i + 1], min, size)
  }

  /** Two blocks have no port in common. */
  predicate Apart(base: int, other: int, size: int) {
    base + size <= other || other + size <= base
  }

  /** No port of the block is used. */
  ghost predicate Vacant(projects: seq<Project>, base: int, size: int) {
    forall port :: base <= port < base + size ==> !IsUsed(projects, port)
  }

  lemma SuggestedIsVacant(
      projects: seq<Project>, reserved: seq<Reservation>, min: int, size: int, max: int, base: int)
    requires Suggested(projects, reserved, min, size, max, base)
    ensures Vacant(projects, base, size)
  {
    forall port | base <= port < base + size ensures !IsUsed(projects, port) {
      assert !Blocked(projects, reserved, port);
    }
  }

  /** A suggested block starts whole blocks above the minimum, and ends in range. */
  lemma SuggestedInRange(
      projects: seq<Project>, reserved: seq<Reservation>, min: int, size: int, max: int, base: int) returns (k: nat)
    requires Suggested(projects, reserved, min, size, max, base)
    ensures base == min + k * size && base + size - 1 <= max
  {
    k :| FirstFree(projects, reserved, min, size, max, k) && base == Base(min, size, k);
  }

  /** No port of a suggested block is a project's, nor reserved. */
  lemma SuggestedPort(
      projects: seq<Project>, reserved: seq<Reservation>, min: int, size: int, max: int, base: int, port: int)
    requires Suggested(projects, reserved, min, size, max, base) && base <= port < base + size
    ensures forall i :: 0 <= i < |projects| ==>
      projects[i].backend != Some(port) && projects[i].frontend != Some(port) && projects[i].db != Some(port)
    ensures forall i :: 0 <= i < |reserved| && reserved[i].Some? ==>
      !(reserved[i].value.0 <= port <= reserved[i].value.1)
  {
    assert !Blocked(projects, reserved, port);
    forall i | 0 <= i < |projects|
      ensures projects[i].backend != Some(port) && projects[i].frontend != Some(port) && projects[i].db != Some(port)
    {
      assert port !in PortsOf(projects[i]);
    }
  }

  /** Every block of whole blocks above the minimum that is lower, or every one if none is suggested, is not free. */
  lemma LowerIsBlocked(
      projects: seq<Project>, reserved: seq<Reservation>, min: int, size: int, max: int, k: nat, j: nat)
    requires size > 0 && j < k && FirstFree(projects, reserved, min, size, max, k)
    ensures exists port :: min + j * size <= port < min + (j + 1) * size && Blocked(projects, reserved, port)
  {
    BlocksApart(min, size, j, k);
    NextBase(min, size, j);
    assert !FreeBlock(projects, reserved, Base(min, size, j), size, max);
  }

  lemma TakenIsOccupied(before: seq<Project>, wanted: Project, base: int, size: int)
    requires Fits(wanted, size)
    ensures !Vacant(before + [Placed(wanted, base)], base, size)
  {
    var port :| port in PortsOf(wanted);
    var after := before + [Placed(wanted, base)];
    assert base + port in PortsOf(after[|before|]) && IsUsed(after, base + port);
  }

  lemma StepTaken(states: seq<seq<Project>>, steps: seq<RegistryStep>, min: int, size: int, i: nat)
    requires RegistryRuns(states, steps, min, size) && i < |steps|
    ensures RegistryDoes(states[i], steps[i], states[i + 1], min, size)
  {
  }

  /** Two blocks taken in one run, from any registry, are the same or disjoint. */
  lemma SameOrDisjoint(states: seq<seq<Project>>, steps: seq<RegistryStep>, min: int, size: int, i: nat, j: nat)
    requires RegistryRuns(states, steps, min, size) && i < j < |steps| && steps[i].Take? && steps[j].Take?
    ensures steps[i].base == steps[j].base || Apart(steps[i].base, steps[j].base, size)
  {
    StepTaken(states, steps, min, size, i);
    StepTaken(states, steps, min, size, j);
    var k :| steps[i].base == Base(min, size, k);
    var l :| steps[j].base == Base(min, size, l);
    if k < l {
      BlocksApart(min, size, k, l);
    } else if l < k {
      BlocksApart(min, size, l, k);
    }
  }

  /** A block is not taken again as long as any of its ports is in use. */
  lemma HeldBlockApart(states: seq<seq<Project>>, steps: seq<RegistryStep>, min: int, size: int, i: nat, j: nat)
    requires RegistryRuns(states, steps, min, size) && i < j < |steps| && steps[i].Take? && steps[j].Take?
    requires !Vacant(states[j], steps[i].base, size)
    ensures Apart(steps[i].base, steps[j].base, size)
  {
    SameOrDisjoint(states, steps, min, size, i, j);
    StepTaken(states, steps, min, size, j);
    SuggestedIsVacant(states[j], steps[j].reserved, min, size, steps[j].max, steps[j].base);
  }

  /** No step gives up a port that is in use: projects are only added. */
  ghost predicate OnlyGrows(states: seq<seq<Project>>) {
    forall i :: 0 <= i < |states| - 1 ==> KeepsPorts(states[i], states[i + 1])
  }

  ghost predicate KeepsPorts(before: seq<Project>, after: seq<Project>) {
    forall port :: IsUsed(before, port) ==> IsUsed(after, port)
  }

  lemma {:induction false} StaysOccupied(states: seq<seq<Project>>, base: int, size: int, m: nat, n: nat)
    requires OnlyGrows(states) && m <= n < |states| && !Vacant(states[m], base, size)
    ensures !Vacant(states[n], base, size)
  {
    if m < n {
      StaysOccupied(states, base, size, m, n - 1);
      assert KeepsPorts(states[n - 1], states[n - 1 + 1]);
    }
  }

  /** While no port is given up, all blocks of a run are pairwise disjoint, from whatever registry it starts. */
  lemma BlocksDisjoint(states: seq<seq<Project>>, steps: seq<RegistryStep>, min: int, size: int, i: nat, j: nat)
    requires RegistryRuns(states, steps, min, size) && OnlyGrows(states)
    requires i < j < |steps| && steps[i].Take? && steps[j].Take?
    ensures Apart(steps[i].base, steps[j].base, size)
  {
    StepTaken(states, steps, min, size, i);
    TakenIsOccupied(states[i], steps[i].wanted, steps[i].base, size);
    StaysOccupied(states, steps[i].base, size, i + 1, j);
    HeldBlockApart(states, steps, min, size, i, j);
  }

  // ---------------------------------------------------------------- test deployments

  type Slug = string

  const RANGE_START := 19500
  const RANGE_END := 19599

  datatype PortError = BadSlug | Exhausted

  /** Lower-case letters, digits and inner hyphens; the pattern also lets one final line break through. */
  predicate ValidSlug(s: Slug) {
    var n := if s != "" && s[|s| - 1] == '\n' then |s| - 1 else |s|;
    n > 0 && s[0] != '-' && forall i :: 0 <= i < n ==> 'a' <= s[i] <= 'z' || '0' <= s[i] <= '9' || s[i] == '-'
  }

  /** A slug is one lower-case letter or digit, and then any number of these and of hyphens. */
  lemma SlugForm(first: char, rest: string)
    requires 'a' <= first <= 'z' || '0' <= first <= '9'
    requires forall i :: 0 <= i < |rest| ==> 'a' <= rest[i] <= 'z' || '0' <= rest[i] <= '9' || rest[i] == '-'
    ensures ValidSlug([first] + rest) && ValidSlug([first] + rest + "\n")
  {
  }

  /** Nothing else is one: not the empty text, nor a hyphen in front, nor any other character inside. */
  lemma SlugRefused(s: Slug, i: nat)
    requires i < |s| && !('a' <= s[i] <= 'z' || '0' <= s[i] <= '9')
    requires i == 0 || s[i] != '-'
    requires s[i] != '\n' || i < |s| - 1 || i == 0
    ensures !ValidSlug(s) && !ValidSlug("")
  {
  }

  class PortState {
    var ports: map<Slug, int>

    /** `allocate_port`: the slug's own port if it has one in range, else the least free one. */
    method AllocatePort(slug: Slug, start: int, end: int) returns (r: Result<int, PortError>)
      modifies this
      ensures r == Err(BadSlug) <==> !ValidSlug(slug)
      ensures r.Err? ==> ports == old(ports)
      ensures r.Ok? ==> start <= r.value <= end && ports == old(ports)[slug := r.value]
      ensures r.Ok? && slug in old(ports) && start <= old(ports)[slug] <= end ==> r.value == old(ports)[slug]
      ensures r.Ok? && !(slug in old(ports) && start <= old(ports)[slug] <= end) ==>
        r.value !in old(ports).Values && forall port :: start <= port < r.value ==> port in old(ports).Values
      ensures r == Err(Exhausted) ==>
        (forall port :: start <= port <= end ==> port in old(ports).Values)
        && !(slug in old(ports) && start <= old(ports)[slug] <= end)
      ensures r.Ok? && start == RANGE_START && end == RANGE_END ==> Does(old(ports), Allocate(slug, r.value), ports)
    {
      if !ValidSlug(slug) {
        return Err(BadSlug);
      }
      if slug in ports && start <= ports[slug] <= end {
        assert ports == ports[slug := ports[slug]];
        return Ok(ports[slug]);
      }
      var port := start;
      while port < end + 1
        invariant start <= port
        invariant forall q :: start <= q < port ==> q in ports.Values
        invariant ports == old(ports)
      {
        if port !in ports.Values {
          ports := ports[slug := port];
          return Ok(port);
        }
        port := port + 1;
      }
      r := Err(Exhausted);
    }

    /** `release_port`. */
    method ReleasePort(slug: Slug)
      modifies this
      ensures ports == old(ports) - {slug}
      ensures Does(old(ports), Release(slug), ports)
    {
      if slug in ports {
        ports := ports - {slug};
      }
    }
  }

  /** No two slugs share a port. */
  predicate Injective(ports: map<Slug, int>) {
    forall s, t :: s in ports && t in ports && s != t ==> ports[s] != ports[t]
  }

  predicate InRange(ports: map<Slug, int>) {
    forall s :: s in ports ==> RANGE_START <= ports[s] <= RANGE_END
  }

  datatype PortStep = Allocate(slug: Slug, port: int) | Release(slug: Slug)

  /** What one call of `AllocatePort`, with the default range, or of `ReleasePort` may do to the state. */
  predicate Does(before: map<Slug, int>, step: PortStep, after: map<Slug, int>) {
    match step
    case Allocate(slug, port) =>
      && after == before[slug := port] && RANGE_START <= port <= RANGE_END
      && (if slug in before && RANGE_START <= before[slug] <= RANGE_END then port == before[slug]
          else port !in before.Values)
    case Release(slug) => after == before - {slug}
  }

  predicate Runs(states: seq<map<Slug, int>>, steps: seq<PortStep>) {
    && |states| == |steps| + 1 && states[0] == map[]
    && forall i :: 0 <= i < |steps| ==> Does(states[i], steps[i], states[i + 1])
  }

  /** In every run of allocations and releases, no two slugs share a port, and all ports are in range. */
  lemma {:induction false} RunsStayInjective(states: seq<map<Slug, int>>, steps: seq<PortStep>, n: nat)
    requires Runs(states, steps) && n <= |steps|
    ensures Injective(states[n]) && InRange(states[n])
  {
    if n > 0 {
      RunsStayInjective(states, steps, n - 1);
      StepStaysInjective(states[n - 1], steps[n - 1], states[n]);
    }
  }

  lemma StepStaysInjective(before: map<Slug, int>, step: PortStep, after: map<Slug, int>)
    requires Injective(before) && InRange(before) && Does(before, step, after)
    ensures Injective(after) && InRange(after)
  {
    if step.Allocate? {
      forall s | s in before && s != step.slug ensures before[s] != step.port {
        assert before[s] in before.Values;
      }
    }
  }

  /** While a slug keeps its port, allocating again gives the same one and changes nothing. */
  lemma {:induction false} AllocationStable(
      states: seq<map<Slug, int>>, steps: seq<PortStep>, slug: Slug, m: nat, n: nat)
    requires Runs(states, steps) && m <= n <= |steps| && slug in states[m]
    requires forall i :: m <= i < n ==> steps[i] != Release(slug)
    ensures slug in states[n] && states[n][slug] == states[m][slug]
  {
    if m < n {
      AllocationStable(states, steps, slug, m, n - 1);
      RunsStayInjective(states, steps, n - 1);
    }
  }

  /** The ports of a deployment: its own, and the two derived from it. */
  function Triple(port: int): set<int> {
    {port, port + 100, port + 200}
  }

  /** Two triples meet exactly when their ports are 0, 100 or 200 apart. */
  lemma TriplesMeetIff(p: int, q: int)
    ensures !(Triple(p) !! Triple(q)) <==> p - q in {-200, -100, 0, 100, 200}
  {
    assert p in Triple(p) && q in Triple(q) && p + 200 in Triple(p) && q + 200 in Triple(q);
  }

  /** In every run, the three ports of one deployment never collide with those of another. */
  lemma TriplesNeverMeet(states: seq<map<Slug, int>>, steps: seq<PortStep>, n: nat, s: Slug, t: Slug)
    requires Runs(states, steps) && n <= |steps| && s in states[n] && t in states[n] && s != t
    ensures Triple(states[n][s]) !! Triple(states[n][t])
  {
    RunsStayInjective(states, steps, n);
    TriplesMeetIff(states[n][s], states[n][t]);
  }
}
