/**
 * `NoticeService`: posting notices, taking them down, and the notice board: the active,
 * unexpired notices, most urgent first and, within one priority, newest first.
 */
module NoticeServices {
  import opened Wrappers
  import opened Errors
  import opened Entities
  import opened Store
  import opened Seqs

  type Notice = Entity<NoticeAttrs>

  /** The notice as `PostNoticeAsync` stores it: posted now and active. */
  function Posted(n: Notice, now: int): (r: Notice)
    ensures r.id == n.id && r.attrs.isActive && r.attrs.postedAt == now
    ensures n.attrs.expiresAt.None? ==> forall t :: IsVisible(r, t)
    ensures r.attrs.(postedAt := n.attrs.postedAt, isActive := n.attrs.isActive) == n.attrs
  {
    n.(attrs := n.attrs.(postedAt := now, isActive := true))
  }

  /** `DeactivateNoticeAsync` on the list of notices: only a missing notice is refused. */
  function Deactivate(all: seq<Notice>, id: int): (r: Result<seq<Notice>, ServiceError>)
    ensures r.Err? <==> Find(all, id).None?
    ensures r.Err? ==> r.error == NoticeNotFound
    ensures r.Ok? ==> |r.value| == |all|
  {
    match Find(all, id)
    case None => Err(NoticeNotFound)
    case Some(n) => Ok(Replace(all, n.(attrs := n.attrs.(isActive := false))))
  }

  /** On the board at `now`: active, and either without expiry or expiring strictly later. */
  predicate IsVisible(n: Notice, now: int): (b: bool)
    ensures b ==> n.attrs.isActive
    ensures n.attrs.expiresAt.Some? && n.attrs.expiresAt.value <= now ==> !b
  {
    n.attrs.isActive && (n.attrs.expiresAt.None? || n.attrs.expiresAt.value > now)
  }

  // ─────────────────────── the board order ───────────────────────

  /** `a` may come before `b`: higher priority, or the same priority and posted no earlier. */
  predicate Outranks(a: Notice, b: Notice)
  {
    a.attrs.priority.Ordinal() > b.attrs.priority.Ordinal() ||
    (a.attrs.priority == b.attrs.priority && a.attrs.postedAt >= b.attrs.postedAt)
  }

  /** `OrderByDescending(Priority).ThenByDescending(PostedAt)` holds of the list. */
  ghost predicate Sorted(s: seq<Notice>)
  {
    forall i, j :: 0 <= i < j < |s| ==> Outranks(s[i], s[j])
  }

  /** Any two notices can be compared, and the order is transitive. */
  lemma OutranksTotalPreorder(a: Notice, b: Notice, c: Notice)
    ensures Outranks(a, b) || Outranks(b, a)
    ensures Outranks(a, b) && Outranks(b, c) ==> Outranks(a, c)
  {
    NoticePriorityOrder(a.attrs.priority, b.attrs.priority.Ordinal());
  }

  /** Put `x` into a sorted list after every notice that outranks it, so equal notices keep their order. */
  function Insert(x: Notice, s: seq<Notice>): (r: seq<Notice>)
    ensures |r| == |s| + 1
    ensures multiset(r) == multiset(s) + multiset{x}
  {
    if |s| == 0 then [x]
    else if !Outranks(s[0], x) then [x] + s
    else
      assert s == [s[0]] + s[1..];
      [s[0]] + Insert(x, s[1..])
  }

  /** Inserting into a sorted list keeps it sorted. */
  lemma {:induction false} InsertSorted(x: Notice, s: seq<Notice>)
    requires Sorted(s)
    ensures Sorted(Insert(x, s))
  {
    if |s| == 0 {
    } else if !Outranks(s[0], x) {
      forall j | 0 <= j < |s| ensures Outranks(x, s[j]) {
        OutranksTotalPreorder(x, s[0], s[j]);
      }
    } else {
      var rest := Insert(x, s[1..]);
      assert Sorted(s[1..]);
      InsertSorted(x, s[1..]);
      assert s == [s[0]] + s[1..];
      forall j | 0 <= j < |rest| ensures Outranks(s[0], rest[j]) {
        assert rest[j] in multiset(rest);
        assert rest[j] in multiset(s[1..]) || rest[j] == x;
      }
      var r := [s[0]] + rest;
      forall i, j | 0 <= i < j < |r| ensures Outranks(r[i], r[j]) {
        if i > 0 {
          assert r[i] == rest[i - 1] && r[j] == rest[j - 1];
        }
      }
    }
  }

  /** The board order, by insertion in store order (a stable sort). */
  function SortNotices(s: seq<Notice>): (r: seq<Notice>)
    ensures multiset(r) == multiset(s)
    ensures Sorted(r)
  {
    if |s| == 0 then []
    else
      var init := SortNotices(s[..|s| - 1]);
      assert s == s[..|s| - 1] + [s[|s| - 1]];
      InsertSorted(s[|s| - 1], init);
      Insert(s[|s| - 1], init)
  }

  /** `GetActiveNoticesAsync` at time `now`: exactly the visible notices, in board order. */
  function ActiveNotices(all: seq<Notice>, now: int): (r: seq<Notice>)
    ensures Sorted(r)
    ensures multiset(r) == multiset(Filter(all, (n: Notice) => IsVisible(n, now)))
    ensures forall n :: n in r <==> n in all && IsVisible(n, now)
  {
    var visible := Filter(all, (n: Notice) => IsVisible(n, now));
    var r := SortNotices(visible);
    assert forall n :: n in r <==> n in multiset(visible);
    r
  }

  /** A notice expiring exactly now is no longer shown, nor is one that has been taken down. */
  lemma ExpiryIsStrict(n: Notice, now: int)
    ensures n.attrs.expiresAt == Some(now) ==> !IsVisible(n, now)
    ensures !n.attrs.isActive ==> !IsVisible(n, now)
    ensures n.attrs.isActive && n.attrs.expiresAt.None? ==> forall t :: IsVisible(n, t)
  {
  }

  /** In a sorted list, a notice that does not outrank another comes after it. */
  lemma SortedOrder(s: seq<Notice>, a: int, b: int)
    requires Sorted(s) && 0 <= a < |s| && 0 <= b < |s| && !Outranks(s[b], s[a])
    ensures a < b
  {
  }

  /** An urgent notice is shown above a low-priority one, however much newer the latter. */
  lemma UrgentFirst(all: seq<Notice>, now: int, i: int, j: int)
    requires var r := ActiveNotices(all, now);
             0 <= i < |r| && 0 <= j < |r| &&
             r[i].attrs.priority == NoticePriority.Urgent && r[j].attrs.priority == NoticePriority.Low
    ensures i < j
  {
    var r := ActiveNotices(all, now);
    SortedOrder(r, i, j);
  }

  /**
   * Deactivate fails only for a missing notice; otherwise that notice is inactive (and so
   * off the board) and nothing else changes.
   */
  lemma DeactivateEffect(all: seq<Notice>, id: int, now: int)
    ensures Deactivate(all, id).Err? <==> Find(all, id).None?
    ensures Deactivate(all, id).Ok? ==>
              var all' := Deactivate(all, id).value;
              var k := FirstIndex(all, id).value;
              && |all'| == |all|
              && all'[k] == all[k].(attrs := all[k].attrs.(isActive := false))
              && !IsVisible(all'[k], now)
              && (forall i :: 0 <= i < |all| && i != k ==> all'[i] == all[i])
  {
  }

  // ─────────────────────── the service ───────────────────────

  class NoticeService {
    const notices: JsonFileRepository<NoticeAttrs>

    constructor (notices: JsonFileRepository<NoticeAttrs>)
      ensures this.notices == notices
    {
      this.notices := notices;
    }

    /** `PostNoticeAsync`. */
    method PostNotice(notice: Notice, now: int) returns (stored: Notice)
      modifies notices
      ensures stored.attrs == notice.attrs.(postedAt := now, isActive := true)
      ensures notices.Snapshot() == WithAdded(old(notices.Snapshot()), Posted(notice, now))
    {
      stored := notices.Add(Posted(notice, now));
    }

    /** `UpdateNoticeAsync`. */
    method UpdateNotice(notice: Notice)
      modifies notices
      ensures notices.items == Replace(old(notices.items), notice) && notices.nextId == old(notices.nextId)
    {
      notices.Update(notice);
    }

    /** `DeactivateNoticeAsync`. */
    method DeactivateNotice(id: int) returns (outcome: Outcome<ServiceError>)
      modifies notices
      ensures var r := Deactivate(old(notices.items), id);
              && outcome == (if r.Ok? then Pass else Fail(r.error))
              && notices.items == (if r.Ok? then r.value else old(notices.items))
              && notices.nextId == old(notices.nextId)
    {
      var found := notices.GetById(id);
      if found.None? {
        return Fail(NoticeNotFound);
      }
      var notice := found.value;
      notices.Update(notice.(attrs := notice.attrs.(isActive := false)));
      return Pass;
    }

    /** `GetActiveNoticesAsync`, with the clock reading passed in. */
    method GetActiveNotices(now: int) returns (r: seq<Notice>)
      ensures r == ActiveNotices(notices.items, now)
    {
      var all := notices.GetAll();
      r := ActiveNotices(all, now);
    }
  }
}
