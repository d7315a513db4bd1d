/** A split-quota provider's tagged pools: the dictionary-filling loop, its
    declarative meaning, and what reordering the windows can and cannot change. */
module QuotaPools {
  import opened Wrappers
  import opened QuotaWindows

  datatype PoolQuota = PoolQuota(tag: PoolTag, five: Option<Snapshot>, weekly: Option<Snapshot>)

  function RemainingOr100(s: Option<Snapshot>): real {
    if s.Some? then s.value.remaining else 100.0
  }

  predicate FiveZero(q: PoolQuota) { RemainingOr100(q.five) <= 0.0 }
  predicate WeekZero(q: PoolQuota) { RemainingOr100(q.weekly) <= 0.0 }
  predicate Blocked(q: PoolQuota) { FiveZero(q) || WeekZero(q) }

  function BlockingKind(q: PoolQuota): WindowKind {
    if WeekZero(q) then Weekly else FiveHour
  }

  function BlockingSnapshot(q: PoolQuota): Option<Snapshot> {
    if WeekZero(q) then q.weekly else q.five
  }

  function TagRank(tag: PoolTag): nat {
    match tag
    case GEM => 0
    case EXT => 1
  }

  // ------------------------------------------------------ declarative pools

  /** The pool of one tag: its least-remaining window of each kind. */
  function PoolOf(p: Presenter, u: ProviderUsage, ws: seq<QuotaWindow>, tag: PoolTag): PoolQuota {
    PoolQuota(tag,
              Least(Snapshots(p, u, ws, FiveHour, Some(tag))),
              Least(Snapshots(p, u, ws, Weekly, Some(tag))))
  }

  predicate HasWindows(q: PoolQuota) {
    q.five.Some? || q.weekly.Some?
  }

  function Present(q: PoolQuota): seq<PoolQuota> {
    if HasWindows(q) then [q] else []
  }

  /** One pool per tag that has a window, GEM before EXT. */
  function PoolsOf(p: Presenter, u: ProviderUsage): seq<PoolQuota> {
    if u.provider != "antigravity" then []
    else Present(PoolOf(p, u, u.windows, GEM)) + Present(PoolOf(p, u, u.windows, EXT))
  }

  // ---------------------------------------------------------- the algorithm

  datatype Entry = Entry(five: Option<Snapshot>, weekly: Option<Snapshot>)

  predicate TracksPool(byTag: map<PoolTag, Entry>, q: PoolQuota) {
    && (q.tag in byTag <==> HasWindows(q))
    && (q.tag in byTag ==> byTag[q.tag] == Entry(q.five, q.weekly))
  }

  /** A dictionary holding exactly the pools of the windows seen so far. */
  ghost predicate Tracks(byTag: map<PoolTag, Entry>, p: Presenter, u: ProviderUsage, ws: seq<QuotaWindow>) {
    forall tag: PoolTag :: TracksPool(byTag, PoolOf(p, u, ws, tag))
  }

  /** Windows of another tag or kind, and windows without one, change nothing. */
  lemma SnapshotsSnoc(p: Presenter, u: ProviderUsage, ws: seq<QuotaWindow>, w: QuotaWindow, kind: WindowKind,
                      tag: Option<PoolTag>)
    ensures Least(Snapshots(p, u, ws + [w], kind, tag)) ==
            var best := Least(Snapshots(p, u, ws, kind, tag));
            if !Counts(w, kind, tag) then best
            else
              var s := TakeSnapshot(p, u, w, kind).value;
              if best.None? || s.remaining < best.value.remaining then Some(s) else best
  {
    hide Counts, TakeSnapshot;
    var all := ws + [w];
    assert all[..|all| - 1] == ws && all[|all| - 1] == w;
    var before := Snapshots(p, u, ws, kind, tag);
    if Counts(w, kind, tag) {
      assert TakeSnapshot(p, u, w, kind).Some? by { CountsHaveSnapshots(p, u, w, kind, tag); }
      var after := before + [TakeSnapshot(p, u, w, kind).value];
      assert after[..|after| - 1] == before;
    }
  }

  lemma CountsHaveSnapshots(p: Presenter, u: ProviderUsage, w: QuotaWindow, kind: WindowKind, tag: Option<PoolTag>)
    requires Counts(w, kind, tag)
    ensures TakeSnapshot(p, u, w, kind).Some?
  {
  }

  /** The loop body's effect on the tracked dictionary. */
  function Insert(byTag: map<PoolTag, Entry>, tag: PoolTag, kind: WindowKind, s: Snapshot): map<PoolTag, Entry> {
    var e := if tag in byTag then byTag[tag] else Entry(None, None);
    byTag[tag := match kind
                 case FiveHour => e.(five := Better(e.five, s))
                 case Weekly => e.(weekly := Better(e.weekly, s))]
  }

  function Better(best: Option<Snapshot>, s: Snapshot): Option<Snapshot> {
    if best.None? || s.remaining < best.value.remaining then Some(s) else best
  }

  lemma PoolSnoc(p: Presenter, u: ProviderUsage, ws: seq<QuotaWindow>, w: QuotaWindow, kind: WindowKind, tag: PoolTag,
                 t: PoolTag)
    requires Counts(w, kind, Some(tag))
    ensures TakeSnapshot(p, u, w, kind).Some?
    ensures var q, s := PoolOf(p, u, ws, t), TakeSnapshot(p, u, w, kind).value;
            PoolOf(p, u, ws + [w], t) ==
            if t != tag then q
            else match kind
                 case FiveHour => q.(five := Better(q.five, s))
                 case Weekly => q.(weekly := Better(q.weekly, s))
  {
    CountsHaveSnapshots(p, u, w, kind, Some(tag));
    SnapshotsSnoc(p, u, ws, w, FiveHour, Some(t));
    SnapshotsSnoc(p, u, ws, w, Weekly, Some(t));
    hide NotchWindowKind, NotchWindowTag, TakeSnapshot, Snapshots, Least;
  }

  lemma InsertTracks(byTag: map<PoolTag, Entry>, p: Presenter, u: ProviderUsage, ws: seq<QuotaWindow>, w: QuotaWindow,
                     kind: WindowKind, tag: PoolTag)
    requires Tracks(byTag, p, u, ws)
    requires Counts(w, kind, Some(tag))
    ensures TakeSnapshot(p, u, w, kind).Some?
    ensures Tracks(Insert(byTag, tag, kind, TakeSnapshot(p, u, w, kind).value), p, u, ws + [w])
  {
    CountsHaveSnapshots(p, u, w, kind, Some(tag));
    hide Counts, TakeSnapshot, PoolOf, Insert, TracksPool;
    var s := TakeSnapshot(p, u, w, kind).value;
    forall t: PoolTag ensures TracksPool(Insert(byTag, tag, kind, s), PoolOf(p, u, ws + [w], t)) {
      PoolSnoc(p, u, ws, w, kind, tag, t);
      PoolKeepsTag(p, u, ws, t);
      InsertTracksPool(byTag, PoolOf(p, u, ws, t), tag, kind, s);
    }
  }

  lemma PoolKeepsTag(p: Presenter, u: ProviderUsage, ws: seq<QuotaWindow>, tag: PoolTag)
    ensures PoolOf(p, u, ws, tag).tag == tag
  {
  }

  lemma InsertTracksPool(byTag: map<PoolTag, Entry>, q: PoolQuota, tag: PoolTag, kind: WindowKind, s: Snapshot)
    requires TracksPool(byTag, q)
    ensures TracksPool(Insert(byTag, tag, kind, s),
                       if q.tag != tag then q
                       else match kind
                            case FiveHour => q.(five := Better(q.five, s))
                            case Weekly => q.(weekly := Better(q.weekly, s)))
  {
  }

  lemma SkipTracks(byTag: map<PoolTag, Entry>, p: Presenter, u: ProviderUsage, ws: seq<QuotaWindow>, w: QuotaWindow)
    requires Tracks(byTag, p, u, ws)
    requires NotchWindowKind(w).None? || w.usedPercent.None? || NotchWindowTag(w).None?
    ensures Tracks(byTag, p, u, ws + [w])
  {
    forall t: PoolTag ensures PoolOf(p, u, ws + [w], t) == PoolOf(p, u, ws, t) {
      SnapshotsSnoc(p, u, ws, w, FiveHour, Some(t));
      SnapshotsSnoc(p, u, ws, w, Weekly, Some(t));
      hide NotchWindowKind, NotchWindowTag, TakeSnapshot, Snapshots, Least;
    }
    hide PoolOf;
  }

  /** Insertion sort by tag rank; the sort the source calls. */
  function SortPools(pools: seq<PoolQuota>): seq<PoolQuota> {
    if pools == [] then []
    else InsertByRank(SortPools(pools[..|pools| - 1]), pools[|pools| - 1])
  }

  function InsertByRank(sorted: seq<PoolQuota>, q: PoolQuota): seq<PoolQuota> {
    if sorted == [] then [q]
    else if TagRank(q.tag) < TagRank(sorted[0].tag) then [q] + sorted
    else [sorted[0]] + InsertByRank(sorted[1..], q)
  }

  /** The pools of the tags in `done`, in rank order. */
  function Listed(byTag: map<PoolTag, Entry>, done: set<PoolTag>): seq<PoolQuota>
    requires done <= byTag.Keys
  {
    (if GEM in done then [PoolQuota(GEM, byTag[GEM].five, byTag[GEM].weekly)] else [])
    + (if EXT in done then [PoolQuota(EXT, byTag[EXT].five, byTag[EXT].weekly)] else [])
  }

  lemma InsertKeepsListed(byTag: map<PoolTag, Entry>, done: set<PoolTag>, tag: PoolTag)
    requires done <= byTag.Keys && tag in byTag && tag !in done
    ensures InsertByRank(Listed(byTag, done), PoolQuota(tag, byTag[tag].five, byTag[tag].weekly))
            == Listed(byTag, done + {tag})
  {
    var q := PoolQuota(tag, byTag[tag].five, byTag[tag].weekly);
    match tag
    case GEM =>
      if EXT in done { assert Listed(byTag, done)[0].tag == EXT; }
    case EXT =>
      if GEM in done {
        var g := Listed(byTag, done);
        assert g[0].tag == GEM && g[1..] == [];
        assert InsertByRank(g[1..], q) == [q];
      }
  }

  /** Fill the dictionary window by window, list it in whatever order it
      iterates, and sort by rank. The result does not depend on that order. */
  method TaggedPools(p: Presenter, u: ProviderUsage) returns (pools: seq<PoolQuota>)
    ensures pools == PoolsOf(p, u)
  {
    if u.provider != "antigravity" {
      return [];
    }
    var byTag: map<PoolTag, Entry> := map[];
    for i := 0 to |u.windows|
      invariant Tracks(byTag, p, u, u.windows[..i])
    {
      hide NotchWindowKind, NotchWindowTag, TakeSnapshot, Tracks;
      var w := u.windows[i];
      assert u.windows[..i + 1] == u.windows[..i] + [w];
      var kind, tag := NotchWindowKind(w), NotchWindowTag(w);
      if kind.None? || w.usedPercent.None? || tag.None? {
        SkipTracks(byTag, p, u, u.windows[..i], w);
        continue;
      }
      assert Counts(w, kind.value, tag);
      InsertTracks(byTag, p, u, u.windows[..i], w, kind.value, tag.value);
      var snap := TakeSnapshot(p, u, w, kind.value).value;
      byTag := Insert(byTag, tag.value, kind.value, snap);
    }
    assert u.windows[..|u.windows|] == u.windows;

    var listed: seq<PoolQuota> := [];
    var left := byTag.Keys;
    while left != {}
      invariant left <= byTag.Keys
      invariant SortPools(listed) == Listed(byTag, byTag.Keys - left)
      decreases left
    {
      hide Tracks;
      var tag :| tag in left;
      var q := PoolQuota(tag, byTag[tag].five, byTag[tag].weekly);
      InsertKeepsListed(byTag, byTag.Keys - left, tag);
      assert (listed + [q])[..|listed|] == listed;
      assert (byTag.Keys - left) + {tag} == byTag.Keys - (left - {tag});
      listed := listed + [q];
      left := left - {tag};
    }
    assert byTag.Keys - left == byTag.Keys;
    pools := SortPools(listed);
    hide PoolOf;
  }

  // ------------------------------------------------------------ what it means

  /** The fold meets its specification: a window belongs to its tag's pool, and
      each side of a pool is the least remaining quota over the windows of that
      tag and kind. */
  lemma PoolSideIsMinimum(p: Presenter, u: ProviderUsage, ws: seq<QuotaWindow>, tag: PoolTag, kind: WindowKind)
    ensures var q := PoolOf(p, u, ws, tag);
            var side := if kind == FiveHour then q.five else q.weekly;
            && (side.Some? <==> exists w | w in ws :: Counts(w, kind, Some(tag)))
            && (side.Some? ==>
                  && side.value.window in ws && Counts(side.value.window, kind, Some(tag))
                  && side.value == TakeSnapshot(p, u, side.value.window, kind).value
                  && side.value.remaining == Remaining(side.value.window)
                  && side.value.tag == Some(tag))
            && forall w | w in ws && Counts(w, kind, Some(tag)) :: side.Some? && side.value.remaining <= Remaining(w)
  {
    hide NotchWindowKind, NotchWindowTag, IsWindowIdle, Remaining;
    var snaps := Snapshots(p, u, ws, kind, Some(tag));
    SnapshotsMembers(p, u, ws, kind, Some(tag));
    LeastIsMinimum(snaps);
    forall w | w in ws && Counts(w, kind, Some(tag))
      ensures snaps != [] && Least(snaps).value.remaining <= Remaining(w)
    {
      assert TakeSnapshot(p, u, w, kind).value in snaps;
    }
    hide Least, Snapshots;
  }

  predicate SameWindows(ws: seq<QuotaWindow>, ws': seq<QuotaWindow>) {
    && (forall w | w in ws :: w in ws')
    && (forall w | w in ws' :: w in ws)
  }

  lemma LeastIgnoresOrder(p: Presenter, u: ProviderUsage, ws: seq<QuotaWindow>, ws': seq<QuotaWindow>, tag: PoolTag,
                          kind: WindowKind)
    requires SameWindows(ws, ws')
    ensures var a := Least(Snapshots(p, u, ws, kind, Some(tag)));
            var b := Least(Snapshots(p, u, ws', kind, Some(tag)));
            && (a.Some? <==> b.Some?)
            && (a.Some? ==> a.value.remaining == b.value.remaining)
  {
    PoolSideIsMinimum(p, u, ws, tag, kind);
    PoolSideIsMinimum(p, u, ws', tag, kind);
    hide Least, Snapshots, Counts, Remaining, TakeSnapshot;
  }

  /** What a reader of the card sees of a pool apart from which window it is. */
  datatype Face = Face(tag: PoolTag, five: Option<real>, weekly: Option<real>, blocked: bool, blockingKind: WindowKind)

  function SideOf(s: Option<Snapshot>): Option<real> {
    if s.Some? then Some(s.value.remaining) else None
  }

  function FaceOf(q: PoolQuota): Face {
    Face(q.tag, SideOf(q.five), SideOf(q.weekly), Blocked(q), BlockingKind(q))
  }

  function Faces(pools: seq<PoolQuota>): seq<Face> {
    if pools == [] then [] else [FaceOf(pools[0])] + Faces(pools[1..])
  }

  /** Tags, remainders, and which pools are blocked by which kind do not depend
      on the order (or repetition) of the windows. */
  lemma PoolsIgnoreWindowOrder(p: Presenter, u: ProviderUsage, ws: seq<QuotaWindow>)
    requires SameWindows(u.windows, ws)
    ensures Faces(PoolsOf(p, u.(windows := ws))) == Faces(PoolsOf(p, u))
  {
    var u' := u.(windows := ws);
    if u.provider == "antigravity" {
      forall tag: PoolTag
        ensures FaceOf(PoolOf(p, u', ws, tag)) == FaceOf(PoolOf(p, u, u.windows, tag))
      {
        SnapshotsIgnoreOtherWindows(p, u, ws, FiveHour, tag);
        SnapshotsIgnoreOtherWindows(p, u, ws, Weekly, tag);
        LeastIgnoresOrder(p, u, u.windows, ws, tag, FiveHour);
        LeastIgnoresOrder(p, u, u.windows, ws, tag, Weekly);
        hide Least, Snapshots;
      }
      hide PoolOf;
      FacesOfTwo(PoolOf(p, u', ws, GEM), PoolOf(p, u', ws, EXT));
      FacesOfTwo(PoolOf(p, u, u.windows, GEM), PoolOf(p, u, u.windows, EXT));
    }
  }

  function PresentFace(f: Face): seq<Face> {
    if f.five.Some? || f.weekly.Some? then [f] else []
  }

  lemma FacesOfTwo(a: PoolQuota, b: PoolQuota)
    ensures Faces(Present(a) + Present(b)) == PresentFace(FaceOf(a)) + PresentFace(FaceOf(b))
  {
    assert Present(b) + [] == Present(b);
    if HasWindows(a) {
      assert ([a] + Present(b))[1..] == Present(b);
    }
    if HasWindows(b) {
      assert [b][1..] == [];
      assert Faces([b]) == [FaceOf(b)];
    }
  }

  /** Snapshots look at the provider's metadata only, not at its window list. */
  lemma {:induction false} SnapshotsIgnoreOtherWindows(p: Presenter, u: ProviderUsage, ws: seq<QuotaWindow>,
                                                       kind: WindowKind, tag: PoolTag)
    ensures forall any :: Snapshots(p, u.(windows := any), ws, kind, Some(tag)) == Snapshots(p, u, ws, kind, Some(tag))
  {
    hide Counts, NotchWindowTag, Remaining;
    if ws != [] {
      SnapshotsIgnoreOtherWindows(p, u, ws[..|ws| - 1], kind, tag);
    }
  }

  // ------------------------------------------- exactly when ties can show

  /** Any two least windows of one tag and kind are the same window. */
  predicate NoTies(ws: seq<QuotaWindow>, tag: PoolTag, kind: WindowKind) {
    forall v, w | v in ws && w in ws && LeastAmong(ws, v, kind, tag) && LeastAmong(ws, w, kind, tag) :: v == w
  }

  predicate LeastAmong(ws: seq<QuotaWindow>, v: QuotaWindow, kind: WindowKind, tag: PoolTag) {
    && Counts(v, kind, Some(tag))
    && forall w | w in ws && Counts(w, kind, Some(tag)) :: Remaining(v) <= Remaining(w)
  }

  /** Without ties the very windows a pool shows survive any reordering. */
  lemma NoTiesNoOrder(p: Presenter, u: ProviderUsage, ws: seq<QuotaWindow>, ws': seq<QuotaWindow>, tag: PoolTag,
                      kind: WindowKind)
    requires SameWindows(ws, ws') && NoTies(ws, tag, kind)
    ensures Least(Snapshots(p, u, ws', kind, Some(tag))) == Least(Snapshots(p, u, ws, kind, Some(tag)))
  {
    PoolSideIsMinimum(p, u, ws, tag, kind);
    PoolSideIsMinimum(p, u, ws', tag, kind);
    var a := Least(Snapshots(p, u, ws, kind, Some(tag)));
    var b := Least(Snapshots(p, u, ws', kind, Some(tag)));
    hide Least, Snapshots, Counts, Remaining, TakeSnapshot;
    if a.Some? {
      assert LeastAmong(ws, a.value.window, kind, tag);
      assert LeastAmong(ws, b.value.window, kind, tag);
    }
  }

  lemma FrontWins(p: Presenter, u: ProviderUsage, ws: seq<QuotaWindow>, i: nat, tag: PoolTag, kind: WindowKind)
    returns (moved: seq<QuotaWindow>)
    requires i < |ws| && LeastAmong(ws, ws[i], kind, tag)
    ensures multiset(moved) == multiset(ws)
    ensures var pick := Least(Snapshots(p, u, moved, kind, Some(tag)));
            pick.Some? && pick.value.window == ws[i]
  {
    var v, rest := ws[i], ws[..i] + ws[i + 1..];
    moved := [v] + rest;
    assert ws == ws[..i] + [v] + ws[i + 1..];
    assert forall w | w in moved :: w in ws;
    hide NotchWindowKind, NotchWindowTag, IsWindowIdle, Remaining;
    SnapshotsConcat(p, u, [v], rest, kind, Some(tag));
    assert [v][..0] == [];
    var snaps := Snapshots(p, u, moved, kind, Some(tag));
    assert Snapshots(p, u, [v], kind, Some(tag)) == [TakeSnapshot(p, u, v, kind).value];
    SnapshotsMembers(p, u, moved, kind, Some(tag));
    assert snaps[0] == TakeSnapshot(p, u, v, kind).value;
    assert snaps[0].remaining == Remaining(v);
    forall s | s in snaps ensures snaps[0].remaining <= s.remaining {
      assert s.window in moved && s.remaining == Remaining(s.window);
    }
    LeastPrefersTheFirst(snaps);
  }

  /** With a tie, two reorderings show different windows: so the windows shown
      are order-independent exactly when there is no tie. */
  lemma TiesShowOrder(p: Presenter, u: ProviderUsage, ws: seq<QuotaWindow>, tag: PoolTag, kind: WindowKind)
    returns (a: seq<QuotaWindow>, b: seq<QuotaWindow>)
    requires !NoTies(ws, tag, kind)
    ensures multiset(a) == multiset(ws) == multiset(b)
    ensures Least(Snapshots(p, u, a, kind, Some(tag))) != Least(Snapshots(p, u, b, kind, Some(tag)))
  {
    hide LeastAmong, Least, Snapshots;
    var v, w :| v in ws && w in ws && LeastAmong(ws, v, kind, tag) && LeastAmong(ws, w, kind, tag) && v != w;
    var i :| 0 <= i < |ws| && ws[i] == v;
    var j :| 0 <= j < |ws| && ws[j] == w;
    a := FrontWins(p, u, ws, i, tag, kind);
    b := FrontWins(p, u, ws, j, tag, kind);
  }
}
