/**
 * The admin application's donate history (client_app/src/ui.rs): the five-field filter,
 * the four-column layout of what it lets through, the Clear Filters button, the edit
 * dialog's save/cancel decision, and the API-key header its HTTP client sends.
 */
module Ui {
  import opened Wrappers
  import opened Types
  import opened Text
  import opened Seqs

  const ColumnCount: nat := 4

  /** The five history filter fields. */
  datatype Filters = Filters(steamId: string, name: string, donateType: string, id: string, value: string)

  const NoFilters := Filters("", "", "", "", "")

  /** An empty filter matches anything; otherwise the lower-cased field must contain the
      lower-cased filter. */
  predicate Matches(filter: string, field: string) {
    filter == "" || Contains(ToLower(field), ToLower(filter))
  }

  /** `donate.id.map(|id| id.to_string()).unwrap_or_default()`. */
  function IdText(id: Option<u64>): string {
    match id
    case None => ""
    case Some(n) => DecimalString(n)
  }

  /** The history filter: Steam id and name may match either player; the id test is on the
      decimal text and does not fold case. */
  predicate Shown(f: Filters, d: Donate) {
    && (Matches(f.steamId, d.account.steamId) || Matches(f.steamId, d.who.steamId))
    && (Matches(f.name, d.account.name) || Matches(f.name, d.who.name))
    && Matches(f.donateType, d.donateType)
    && (f.id == "" || Contains(IdText(d.id), f.id))
    && Matches(f.value, d.value)
  }

  function FilterDonates(ds: seq<Donate>, f: Filters): seq<Donate> {
    Filter(ds, (d: Donate) => Shown(f, d))
  }

  /** With every field empty every donate is shown, in order. */
  lemma NoFiltersShowAll(ds: seq<Donate>)
    ensures FilterDonates(ds, NoFilters) == ds
  {
    FilterAll(ds, (d: Donate) => Shown(NoFilters, d));
  }

  /** The shown list is exactly the donates passing all five tests, an order-preserving
      selection of the list, so "Showing n of m" has n <= m. */
  lemma FilterDonatesExact(ds: seq<Donate>, f: Filters)
    ensures forall d :: d in FilterDonates(ds, f) <==> d in ds && Shown(f, d)
    ensures IsSubsequence(FilterDonates(ds, f), ds)
    ensures |FilterDonates(ds, f)| <= |ds|
  {
    var p := (d: Donate) => Shown(f, d);
    FilterIsSubsequence(ds, p);
    forall d | d in ds && Shown(f, d) ensures d in FilterDonates(ds, f) {
      var i :| 0 <= i < |ds| && ds[i] == d;
    }
  }

  /** A donate without an id fails any non-empty id filter. */
  lemma MissingIdFailsIdFilter(f: Filters, d: Donate)
    requires f.id != "" && d.id.None?
    ensures !Shown(f, d)
  {
    ContainsLength("", f.id);
  }

  function LowerFilters(f: Filters): Filters {
    Filters(ToLower(f.steamId), ToLower(f.name), ToLower(f.donateType), f.id, ToLower(f.value))
  }

  /** The case of what is typed into the four text filters does not matter. */
  lemma FilterCaseInsensitive(f: Filters, d: Donate)
    ensures Shown(LowerFilters(f), d) == Shown(f, d)
  {
    ToLowerIdempotent(f.steamId);
    ToLowerIdempotent(f.name);
    ToLowerIdempotent(f.donateType);
    ToLowerIdempotent(f.value);
    ToLowerEmpty(f.steamId);
    ToLowerEmpty(f.name);
    ToLowerEmpty(f.donateType);
    ToLowerEmpty(f.value);
  }

  lemma ToLowerEmpty(s: string)
    ensures ToLower(s) == "" <==> s == ""
  {
  }

  // ---------------------------------------------------------------------------
  // The four-column layout
  // ---------------------------------------------------------------------------

  /** The positions, among the first `n` shown donates, drawn in column `c`. */
  function Column(n: nat, c: nat): seq<nat> {
    if n == 0 then []
    else Column(n - 1, c) + (if (n - 1) % ColumnCount == c then [n - 1] else [])
  }

  /** Position `i` is in column `c` exactly when `i mod 4 == c`, as the column's
      `i / 4`-th entry; columns list positions in increasing order. */
  lemma {:induction false} ColumnExact(n: nat, c: nat)
    requires c < ColumnCount
    ensures forall j :: j in Column(n, c) <==> 0 <= j < n && j % ColumnCount == c
    ensures forall k :: 0 <= k < |Column(n, c)| ==> Column(n, c)[k] == ColumnCount * k + c
  {
    if n > 0 {
      ColumnExact(n - 1, c);
      var prev := Column(n - 1, c);
      if (n - 1) % ColumnCount == c {
        ColumnLength(n - 1, c);
        var q := (n - 1) / ColumnCount;
        assert n - 1 == ColumnCount * q + c;
        assert (n - 1) + ColumnCount - 1 - c == ColumnCount * q + 3;
        assert |prev| == q;
        assert Column(n, c) == prev + [n - 1];
      } else {
        assert Column(n, c) == prev;
      }
    }
  }

  lemma {:induction false} ColumnLength(n: nat, c: nat)
    requires c < ColumnCount
    ensures |Column(n, c)| == (n + ColumnCount - 1 - c) / ColumnCount
  {
    if n > 0 {
      ColumnLength(n - 1, c);
    }
  }

  /** Each shown donate is drawn in exactly one column. */
  lemma ExactlyOneColumn(n: nat, i: nat)
    requires i < n
    ensures forall c :: 0 <= c < ColumnCount ==> (i in Column(n, c) <==> c == i % ColumnCount)
  {
    forall c | 0 <= c < ColumnCount ensures i in Column(n, c) <==> c == i % ColumnCount {
      ColumnExact(n, c);
    }
  }

  /** The layout loop: for each column, walk all shown donates and keep those whose index
      falls in it. */
  method LayoutColumns(n: nat) returns (cols: seq<seq<nat>>)
    ensures |cols| == ColumnCount
    ensures forall c :: 0 <= c < ColumnCount ==> cols[c] == Column(n, c)
  {
    cols := [];
    for col := 0 to ColumnCount
      invariant |cols| == col
      invariant forall c :: 0 <= c < col ==> cols[c] == Column(n, c)
    {
      var column: seq<nat> := [];
      for idx := 0 to n
        invariant column == Column(idx, col)
      {
        if idx % ColumnCount == col {
          column := column + [idx];
        }
      }
      cols := cols + [column];
    }
  }

  // ---------------------------------------------------------------------------
  // The API client's header
  // ---------------------------------------------------------------------------

  /** What `str::parse::<HeaderValue>` accepts: no control character other than tab. */
  predicate HeaderSafe(s: string) {
    forall i :: 0 <= i < |s| ==> s[i] == '\t' || (' ' <= s[i] && s[i] != '\U{7f}')
  }

  /** `create_client_with_password`: the default headers, `None` where the `unwrap` of an
      unparsable password would panic. */
  function ApiHeaders(password: string): (h: Option<map<string, string>>)
    ensures h.None? <==> password != "" && !HeaderSafe(password)
    ensures h.Some? ==> ("X-API-Key" in h.value <==> password != "")
    ensures h.Some? && password != "" ==> h.value == map["X-API-Key" := password]
  {
    if password == "" then Some(map[])
    else if HeaderSafe(password) then Some(map["X-API-Key" := password])
    else None
  }

  // ---------------------------------------------------------------------------
  // The application state
  // ---------------------------------------------------------------------------

  /** The part of `App` the history tab and the edit dialog change. */
  class App {
    var donates: seq<Donate>
    var historyFilterSteamId: string
    var historyFilterName: string
    var historyFilterType: string
    var historyFilterId: string
    var historyFilterValue: string
    var editingDonate: Option<Donate>
    /** The `PUT /api/donates/{id}` requests sent, oldest first. */
    var updatesSent: seq<(u64, Donate)>

    constructor ()
      ensures donates == [] && editingDonate.None? && updatesSent == []
      ensures CurrentFilters() == NoFilters
    {
      donates := [];
      historyFilterSteamId, historyFilterName, historyFilterType := "", "", "";
      historyFilterId, historyFilterValue := "", "";
      editingDonate := None;
      updatesSent := [];
    }

    function CurrentFilters(): Filters
      reads this
    {
      Filters(historyFilterSteamId, historyFilterName, historyFilterType, historyFilterId, historyFilterValue)
    }

    /** What the history tab lists. */
    function Visible(): seq<Donate>
      reads this
    {
      FilterDonates(donates, CurrentFilters())
    }

    /** Clear Filters: all five fields become empty, so every donate is listed again. */
    method ClearFilters()
      modifies this
      ensures CurrentFilters() == NoFilters
      ensures Visible() == donates
      ensures donates == old(donates) && editingDonate == old(editingDonate) && updatesSent == old(updatesSent)
    {
      historyFilterSteamId := "";
      historyFilterName := "";
      historyFilterType := "";
      historyFilterId := "";
      historyFilterValue := "";
      NoFiltersShowAll(donates);
    }

    /** `update_donate`: a donate without an id is refused before anything is sent. */
    method UpdateDonate(d: Donate) returns (r: Result<(), string>)
      modifies this
      ensures r.Success? <==> d.id.Some?
      ensures r.Success? ==> updatesSent == old(updatesSent) + [(d.id.value, d)]
      ensures r.Failure? ==> updatesSent == old(updatesSent)
      ensures donates == old(donates) && editingDonate == old(editingDonate)
      ensures CurrentFilters() == old(CurrentFilters())
    {
      if d.id.None? {
        return Failure("Donate ID is missing");
      }
      updatesSent := updatesSent + [(d.id.value, d)];
      r := Success(());
    }

    /** One frame of the edit dialog, given the edited copy and which buttons were
        pressed: save wins over cancel and sends the update; either closes the dialog;
        neither keeps the edited copy open.  The dialog has no id field, so the edited
        copy keeps the id of the donate being edited. */
    method EditModalStep(edited: Donate, save: bool, cancel: bool)
      requires editingDonate.Some? ==> edited.id == editingDonate.value.id
      modifies this
      ensures old(editingDonate).None? ==> editingDonate.None? && updatesSent == old(updatesSent)
      ensures old(editingDonate).Some? ==>
        && (save || cancel ==> editingDonate.None?)
        && (!save && !cancel ==> editingDonate == Some(edited))
        && (save && edited.id.Some? ==> updatesSent == old(updatesSent) + [(edited.id.value, edited)])
        && (!save || edited.id.None? ==> updatesSent == old(updatesSent))
      ensures donates == old(donates) && CurrentFilters() == old(CurrentFilters())
    {
      if editingDonate.None? {
        return;
      }
      editingDonate := None;
      if save {
        var _ := UpdateDonate(edited);
        editingDonate := None;
      } else if cancel {
        editingDonate := None;
      } else {
        editingDonate := Some(edited);
      }
    }
  }
}
