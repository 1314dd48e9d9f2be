/** The quantity of an asset stack still available once reservations are
    taken off: lines of open requests, and lines of requests completed in
    the last two hours (the in-game contract may not have arrived yet). */
module AssetHelper {
  import opened Text
  import opened Records

  /** Completed requests keep their lines reserved for two hours. */
  const RecentWindow: int := 60 * 60 * 2

  /** Lines of asset `pk` whose request is completed and was closed at or
      after `now - 2h`; a request with no closing time never matches. */
  predicate IsRecentLine(reqs: Requests, pk: int, now: int, l: RequestAsset) {
    l.assetPk == pk && LineHasStatus(reqs, l, Completed)
    && reqs[l.requestPk].closedAt.Some? && reqs[l.requestPk].closedAt.value >= now - RecentWindow
  }

  /** Lines of asset `pk` whose request is open. */
  predicate IsOpenLine(reqs: Requests, pk: int, l: RequestAsset) {
    l.assetPk == pk && LineHasStatus(reqs, l, Open)
  }

  function RecentLines(reqs: Requests, lines: seq<RequestAsset>, pk: int, now: int): seq<RequestAsset> {
    Filter(lines, l => IsRecentLine(reqs, pk, now, l))
  }

  function OpenLines(reqs: Requests, lines: seq<RequestAsset>, pk: int): seq<RequestAsset> {
    Filter(lines, l => IsOpenLine(reqs, pk, l))
  }

  /** The outcome of `update_asset_object`: the asset is dropped (`False`)
      or kept with its reduced quantity. */
  datatype Reduction = Dropped | Kept(quantity: int)

  /** The two reductions in the source's order. An empty sum is `None` and
      a zero sum is falsy: both skip their step. */
  function Reduce(q: int, recent: int, open: int): Reduction {
    if recent != 0 && recent >= q then Dropped
    else
      var q1 := if recent != 0 then q - recent else q;
      if open != 0 && open >= q1 then Dropped
      else Kept(if open != 0 then q1 - open else q1)
  }

  /** For non-negative totals the asset is kept exactly when nothing is
      reserved or the reservations leave some stock; the kept quantity is
      the stock minus both totals, positive whenever something was taken
      off, and unchanged when both totals are zero. */
  lemma ReduceDecision(q: int, recent: int, open: int)
    requires recent >= 0 && open >= 0
    ensures Reduce(q, recent, open).Kept? <==> (recent == 0 && open == 0) || recent + open < q
    ensures Reduce(q, recent, open).Kept? ==> Reduce(q, recent, open).quantity == q - recent - open
    ensures Reduce(q, recent, open).Kept? && recent + open > 0 ==> Reduce(q, recent, open).quantity > 0
    ensures recent == 0 && open == 0 ==> Reduce(q, recent, open) == Kept(q)
  {
  }

  /** A line that belongs to another asset, to a cancelled request, to a
      request completed more than two hours ago, or to no stored request
      changes neither total. */
  lemma IgnoredLineChangesNothing(reqs: Requests, lines: seq<RequestAsset>, line: RequestAsset, pk: int, now: int)
    requires line.assetPk != pk || line.requestPk !in reqs || reqs[line.requestPk].status == Cancelled
      || (reqs[line.requestPk].status == Completed
          && (reqs[line.requestPk].closedAt.None? || reqs[line.requestPk].closedAt.value < now - RecentWindow))
    ensures Total(RecentLines(reqs, lines + [line], pk, now)) == Total(RecentLines(reqs, lines, pk, now))
    ensures Total(OpenLines(reqs, lines + [line], pk)) == Total(OpenLines(reqs, lines, pk))
  {
    FilterAppend(lines, line, l => IsRecentLine(reqs, pk, now, l));
    FilterAppend(lines, line, l => IsOpenLine(reqs, pk, l));
  }

  /** A line of an open request for this asset raises the open total by
      its quantity and leaves the recent total alone. */
  lemma OpenLineCounts(reqs: Requests, lines: seq<RequestAsset>, line: RequestAsset, pk: int, now: int)
    requires line.assetPk == pk && LineHasStatus(reqs, line, Open)
    ensures Total(OpenLines(reqs, lines + [line], pk)) == Total(OpenLines(reqs, lines, pk)) + line.quantity
    ensures Total(RecentLines(reqs, lines + [line], pk, now)) == Total(RecentLines(reqs, lines, pk, now))
  {
    FilterAppend(lines, line, l => IsRecentLine(reqs, pk, now, l));
    FilterAppend(lines, line, l => IsOpenLine(reqs, pk, l));
    TotalAppend(OpenLines(reqs, lines, pk), line);
  }

  /** An asset row loaded into memory; only its quantity is ever changed
      and nothing is written back. */
  class AssetInstance {
    const row: AssetRow
    var quantity: int

    constructor Load(row: AssetRow)
      ensures this.row == row && quantity == row.quantity
    {
      this.row := row;
      quantity := row.quantity;
    }
  }

  /** `update_asset_object`: `kept` is false where the source returns
      `False`; when kept, the in-memory quantity is the reduced one. */
  method UpdateAssetObject(asset: AssetInstance, reqs: Requests, lines: seq<RequestAsset>, now: int)
    returns (kept: bool)
    modifies asset
    ensures var recent := Total(RecentLines(reqs, lines, asset.row.pk, now));
      var open := Total(OpenLines(reqs, lines, asset.row.pk));
      var r := Reduce(old(asset.quantity), recent, open);
      && kept == r.Kept?
      && (kept ==> asset.quantity == r.quantity)
      && (!kept ==> asset.quantity == old(asset.quantity) || asset.quantity == old(asset.quantity) - recent)
  {
    var recent := Total(RecentLines(reqs, lines, asset.row.pk, now));
    var open := Total(OpenLines(reqs, lines, asset.row.pk));
    if recent != 0 {
      if recent >= asset.quantity {
        return false;
      }
      asset.quantity := asset.quantity - recent;
    }
    if open != 0 {
      if open >= asset.quantity {
        return false;
      }
      asset.quantity := asset.quantity - open;
    }
    return true;
  }
}
