/** Which newsletter counts as a child's latest. Both the send function and
    the dashboard ask the store for newsletters ordered by `created_at`
    descending; PostgreSQL puts NULLs first in a descending order, so a row
    without a creation time ranks before every row that has one. Among rows
    of equal rank the one met first is taken. */
module NewsletterOrder {
  import opened Wrappers
  import opened Schema

  /** `a` comes no later than `b` in `ORDER BY created_at DESC` (NULLS FIRST). */
  predicate RanksFirst(a: Option<Timestamp>, b: Option<Timestamp>) {
    a.None? || (b.Some? && a.value >= b.value)
  }

  /** Every row ranks no later than each row after it. */
  predicate NewestFirst(rows: seq<NewsletterRow>) {
    forall i, j | 0 <= i < j < |rows| :: RanksFirst(rows[i].createdAt, rows[j].createdAt)
  }

  /** The properties that make index `k` the latest newsletter of `childId`:
      it belongs to the child, ranks no later than any of the child's rows,
      and every row of the child before it ranks strictly later. */
  predicate IsLatestAt(rows: seq<NewsletterRow>, childId: string, k: nat) {
    && k < |rows|
    && rows[k].childId == childId
    && (forall i | 0 <= i < |rows| && rows[i].childId == childId ::
          RanksFirst(rows[k].createdAt, rows[i].createdAt))
    && (forall i | 0 <= i < k && rows[i].childId == childId ::
          !RanksFirst(rows[i].createdAt, rows[k].createdAt))
  }

  lemma RanksFirstTotal(a: Option<Timestamp>, b: Option<Timestamp>)
    ensures RanksFirst(a, b) || RanksFirst(b, a)
  {
  }

  /** `.eq('child_id', id).order('created_at', {ascending: false}).limit(1)`:
      the position of the child's latest newsletter, `None` when it has none. */
  function LatestIndex(rows: seq<NewsletterRow>, childId: string): (r: Option<nat>)
    ensures r.None? <==> forall i | 0 <= i < |rows| :: rows[i].childId != childId
    ensures r.Some? ==> IsLatestAt(rows, childId, r.value)
    decreases |rows|
  {
    if |rows| == 0 then None
    else
      var rest := LatestIndex(rows[1..], childId);
      if rows[0].childId == childId &&
         (rest.None? || RanksFirst(rows[0].createdAt, rows[rest.value + 1].createdAt))
      then
        assert forall i | 1 <= i < |rows| :: rows[i] == rows[1..][i - 1];
        Some(0)
      else
        assert forall i | 1 <= i < |rows| :: rows[i] == rows[1..][i - 1];
        if rest.None? then None else Some(rest.value + 1)
  }

  /** The characterisation pins the position down: any index with the
      latest-row properties is the one `LatestIndex` finds. */
  lemma LatestIndexUnique(rows: seq<NewsletterRow>, childId: string, k: nat)
    requires IsLatestAt(rows, childId, k)
    ensures LatestIndex(rows, childId) == Some(k)
  {
    var m := LatestIndex(rows, childId);
    assert m.Some?;
    var j := m.value;
    RanksFirstTotal(rows[k].createdAt, rows[j].createdAt);
    assert !(k < j);
    assert !(j < k);
  }

  /** The latest newsletter of a child, as the row. */
  function Latest(rows: seq<NewsletterRow>, childId: string): (r: Option<NewsletterRow>)
    ensures r.None? <==> forall i | 0 <= i < |rows| :: rows[i].childId != childId
    ensures r.Some? ==> r.value in rows && r.value.childId == childId
    ensures r.Some? ==> forall i | 0 <= i < |rows| && rows[i].childId == childId ::
      RanksFirst(r.value.createdAt, rows[i].createdAt)
  {
    match LatestIndex(rows, childId)
    case None => None
    case Some(k) => Some(rows[k])
  }

  /** The position of the first row of the child. */
  function FirstIndex(rows: seq<NewsletterRow>, childId: string): (r: Option<nat>)
    ensures r.None? <==> forall i | 0 <= i < |rows| :: rows[i].childId != childId
    ensures r.Some? ==>
      && r.value < |rows| && rows[r.value].childId == childId
      && (forall i | 0 <= i < r.value :: rows[i].childId != childId)
    decreases |rows|
  {
    if |rows| == 0 then None
    else if rows[0].childId == childId then Some(0)
    else
      var rest := FirstIndex(rows[1..], childId);
      assert forall i | 1 <= i < |rows| :: rows[i] == rows[1..][i - 1];
      if rest.None? then None else Some(rest.value + 1)
  }

  /** `rows.filter(n => n.child_id === id)[0]`: the first row of the child. */
  function FirstFor(rows: seq<NewsletterRow>, childId: string): (r: Option<NewsletterRow>)
    ensures r.None? <==> forall i | 0 <= i < |rows| :: rows[i].childId != childId
    ensures r.Some? ==> r.value in rows && r.value.childId == childId
    ensures r.Some? ==> exists k | 0 <= k < |rows| ::
      rows[k] == r.value && forall i | 0 <= i < k :: rows[i].childId != childId
  {
    match FirstIndex(rows, childId)
    case None => None
    case Some(k) => Some(rows[k])
  }

  /** On a list already ordered newest first, the first row of the child is
      its latest: the dashboard's `filter(...)[0]` and the send function's
      ordered single-row query pick the same newsletter. */
  lemma {:induction false} FirstOfNewestFirstIsLatest(rows: seq<NewsletterRow>, childId: string)
    requires NewestFirst(rows)
    ensures FirstFor(rows, childId) == Latest(rows, childId)
    decreases |rows|
  {
    if |rows| > 0 {
      if rows[0].childId == childId {
        assert IsLatestAt(rows, childId, 0);
        LatestIndexUnique(rows, childId, 0);
      } else {
        var tail := rows[1..];
        assert NewestFirst(tail) by {
          forall i, j | 0 <= i < j < |tail|
            ensures RanksFirst(tail[i].createdAt, tail[j].createdAt)
          {
            assert tail[i] == rows[i + 1] && tail[j] == rows[j + 1];
          }
        }
        FirstOfNewestFirstIsLatest(tail, childId);
        match LatestIndex(tail, childId)
        case None =>
        case Some(k) =>
          assert IsLatestAt(rows, childId, k + 1) by {
            forall i | 0 <= i < |rows| && rows[i].childId == childId
              ensures RanksFirst(rows[k + 1].createdAt, rows[i].createdAt)
            {
              assert i >= 1 && rows[i] == tail[i - 1];
            }
            forall i | 0 <= i < k + 1
              ensures rows[i].childId == childId ==> !RanksFirst(rows[i].createdAt, rows[k + 1].createdAt)
            {
              if i >= 1 {
                assert rows[i] == tail[i - 1];
              }
            }
          }
          LatestIndexUnique(rows, childId, k + 1);
      }
    }
  }
}
