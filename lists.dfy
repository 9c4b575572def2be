/**
 * The `ListInput` component of src/App.tsx: a list in the store (authors,
 * editors, affiliated groups, the names of a group) that the user grows and
 * shrinks with `+` and `-` buttons. Which buttons are offered depends on the
 * list's length and on whether the list may become empty.
 */
module Lists {

  // ---------------------------------------------------------------------------
  // The two splices, as values

  /** `[...a.slice(0, i + 1), x, ...a.slice(i + 1)]`: `x` goes in right after item `i`. */
  function InsertAfter<T>(s: seq<T>, i: nat, x: T): (r: seq<T>)
    requires i < |s|
    ensures |r| == |s| + 1
    ensures r[i + 1] == x
    ensures forall j | 0 <= j <= i :: r[j] == s[j]
    ensures forall j | i + 1 <= j < |s| :: r[j + 1] == s[j]
  {
    s[..i + 1] + [x] + s[i + 1..]
  }

  /** `[...a.slice(0, i), ...a.slice(i + 1)]`: item `i` goes, the others close up. */
  function RemoveAt<T>(s: seq<T>, i: nat): (r: seq<T>)
    requires i < |s|
    ensures |r| == |s| - 1
    ensures forall j | 0 <= j < i :: r[j] == s[j]
    ensures forall j | i <= j < |r| :: r[j] == s[j + 1]
  {
    s[..i] + s[i + 1..]
  }

  /** Removing what was just inserted gives the list back. */
  lemma RemoveInserted<T>(s: seq<T>, i: nat, x: T)
    requires i < |s|
    ensures RemoveAt(InsertAfter(s, i, x), i + 1) == s
  {
    var r := RemoveAt(InsertAfter(s, i, x), i + 1);
    forall j | 0 <= j < |s| ensures r[j] == s[j] {
      if j <= i {
        assert r[j] == InsertAfter(s, i, x)[j];
      } else {
        assert r[j] == InsertAfter(s, i, x)[j + 1];
      }
    }
  }

  /** Inserting adds exactly one copy of the default and loses nothing. */
  lemma InsertAfterCounts<T>(s: seq<T>, i: nat, x: T)
    requires i < |s|
    ensures multiset(InsertAfter(s, i, x)) == multiset(s) + multiset{x}
  {
    assert s == s[..i + 1] + s[i + 1..];
  }

  /** Removing loses exactly item `i`. */
  lemma RemoveAtCounts<T>(s: seq<T>, i: nat)
    requires i < |s|
    ensures multiset(RemoveAt(s, i)) == multiset(s) - multiset{s[i]}
  {
    assert s == s[..i] + [s[i]] + s[i + 1..];
  }

  /** Setting index 1 of a one-item list is the same edit as inserting after item 0. */
  lemma SecondIsInsertAfterFirst<T>(s: seq<T>, x: T)
    requires |s| == 1
    ensures s + [x] == InsertAfter(s, 0, x)
  {
  }

  // ---------------------------------------------------------------------------
  // Which buttons the component offers

  /** The three layouts: a bare `+` for an empty list; one input with `+` (and, when
      `clear` holds, `-`) for a single item; one input per item, each with `+` and `-`. */
  datatype ListView = EmptyRow | SingleRow(clear: bool) | ItemRows

  /** The layout as written: the single-item branch is taken only when the list may not
      become empty, and inside it the `-` button is shown only when it may. */
  function ListViewAsWritten(n: nat, allowEmpty: bool): (v: ListView)
    ensures v == EmptyRow <==> n == 0
    ensures v.SingleRow? <==> n == 1 && !allowEmpty
  {
    if n == 0 then EmptyRow
    else if n == 1 && !allowEmpty then SingleRow(allowEmpty)
    else ItemRows
  }

  /** As written, the `-` button that empties a one-item list is never rendered. */
  lemma ClearNeverOffered(n: nat, allowEmpty: bool)
    ensures ListViewAsWritten(n, allowEmpty) != SingleRow(true)
  {
    if ListViewAsWritten(n, allowEmpty).SingleRow? {
      assert !allowEmpty;
    }
  }

  /** The layout with the single-item branch taken for every one-item list, so that its
      `-` button appears exactly for the lists that may become empty. */
  function ListViewIntended(n: nat, allowEmpty: bool): (v: ListView)
    ensures v == EmptyRow <==> n == 0
    ensures v.SingleRow? <==> n == 1
    ensures v == SingleRow(true) <==> n == 1 && allowEmpty
  {
    if n == 0 then EmptyRow
    else if n == 1 then SingleRow(allowEmpty)
    else ItemRows
  }

  // ---------------------------------------------------------------------------
  // The edits behind the buttons

  /** What a button writes: `props.set(0, …)`, `props.set(1, …)`, `props.set([])`, or the
      per-item splices after or at item `i`. */
  datatype Edit = SetFirst | SetSecond | ClearAll | InsertAfterItem(i: nat) | RemoveItem(i: nat)

  /** Whether layout `v` of an `n`-item list renders the button for edit `e`. */
  predicate Offered(v: ListView, n: nat, e: Edit) {
    match e
    case SetFirst => v == EmptyRow
    case SetSecond => v.SingleRow?
    case ClearAll => v == SingleRow(true)
    case InsertAfterItem(i) => v == ItemRows && i < n
    case RemoveItem(i) => v == ItemRows && i < n
  }

  /** The lists edit `e` can be applied to: an index write lands at the end, a splice on an item. */
  predicate Fits(n: nat, e: Edit) {
    match e
    case SetFirst => n == 0
    case SetSecond => n == 1
    case ClearAll => true
    case InsertAfterItem(i) => i < n
    case RemoveItem(i) => i < n
  }

  /** Every button either layout renders writes to a list it fits. */
  lemma OfferedFits(n: nat, allowEmpty: bool, e: Edit)
    requires Offered(ListViewAsWritten(n, allowEmpty), n, e) || Offered(ListViewIntended(n, allowEmpty), n, e)
    ensures Fits(n, e)
  {
  }

  /** The list after edit `e`, with `d` the component's default item. */
  function Apply<T>(s: seq<T>, e: Edit, d: T): (r: seq<T>)
    requires Fits(|s|, e)
    ensures r == [] <==> e == ClearAll || (e.RemoveItem? && |s| == 1)
    ensures |r| == match e
                   case SetFirst => 1
                   case SetSecond => 2
                   case ClearAll => 0
                   case InsertAfterItem(_) => |s| + 1
                   case RemoveItem(_) => |s| - 1
  {
    match e
    case SetFirst => [d]
    case SetSecond => s + [d]
    case ClearAll => []
    case InsertAfterItem(i) => InsertAfter(s, i, d)
    case RemoveItem(i) => RemoveAt(s, i)
  }

  /** A list that may not become empty is never emptied by a button either layout renders:
      as written, its single-item row has no `-`, and its per-item `-` appears only from two
      items up. */
  lemma NeverEmptied<T>(s: seq<T>, allowEmpty: bool, e: Edit, d: T)
    requires !allowEmpty && |s| >= 1
    requires Offered(ListViewAsWritten(|s|, allowEmpty), |s|, e) || Offered(ListViewIntended(|s|, allowEmpty), |s|, e)
    ensures Fits(|s|, e) && |Apply(s, e, d)| >= 1
  {
    OfferedFits(|s|, allowEmpty, e);
  }

  /** A one-item list that may become empty can be emptied in either layout: as written by
      the per-item `-`, in the corrected layout by the single-item `-`. */
  lemma EmptiedWhenAllowed<T>(s: seq<T>, d: T)
    requires |s| == 1
    ensures Offered(ListViewAsWritten(1, true), 1, RemoveItem(0)) && Apply(s, RemoveItem(0), d) == []
    ensures Offered(ListViewIntended(1, true), 1, ClearAll) && Apply(s, ClearAll, d) == []
  {
  }

  // ---------------------------------------------------------------------------
  // The component's edits, on the list it is given

  class ListInput<T> {
    /** The list in the store that `props.set` writes. */
    var items: seq<T>
    /** `props.default`, the item a `+` adds. */
    const default_: T
    /** `props.allow_empty`. */
    const allowEmpty: bool

    constructor (items0: seq<T>, default0: T, allowEmpty0: bool)
      ensures items == items0 && default_ == default0 && allowEmpty == allowEmpty0
    {
      items := items0;
      default_ := default0;
      allowEmpty := allowEmpty0;
    }

    /** `+` on an empty list: `props.set(0, props.default)`. */
    method AddFirst()
      requires Offered(ListViewAsWritten(|items|, allowEmpty), |items|, SetFirst)
      modifies this
      ensures items == [default_]
      ensures items == Apply(old(items), SetFirst, default_)
    {
      items := [default_];
    }

    /** `+` beside the only item: `props.set(1, props.default)`. */
    method AddSecond()
      requires Offered(ListViewAsWritten(|items|, allowEmpty), |items|, SetSecond)
      modifies this
      ensures items == old(items) + [default_]
      ensures items == InsertAfter(old(items), 0, default_)
      ensures items == Apply(old(items), SetSecond, default_)
    {
      SecondIsInsertAfterFirst(items, default_);
      items := items + [default_];
    }

    /** `-` beside the only item: `props.set([])`, rendered only by the corrected layout. */
    method Clear()
      requires Offered(ListViewIntended(|items|, allowEmpty), |items|, ClearAll)
      modifies this
      ensures items == [] && allowEmpty
      ensures items == Apply(old(items), ClearAll, default_)
    {
      items := [];
    }

    /** `+` beside item `i`. */
    method InsertDefaultAfter(i: nat)
      requires Offered(ListViewAsWritten(|items|, allowEmpty), |items|, InsertAfterItem(i))
      modifies this
      ensures items == InsertAfter(old(items), i, default_)
      ensures items == Apply(old(items), InsertAfterItem(i), default_)
      ensures multiset(items) == multiset(old(items)) + multiset{default_}
    {
      InsertAfterCounts(items, i, default_);
      items := items[..i + 1] + [default_] + items[i + 1..];
    }

    /** `-` beside item `i`. */
    method Remove(i: nat)
      requires Offered(ListViewAsWritten(|items|, allowEmpty), |items|, RemoveItem(i))
      modifies this
      ensures items == RemoveAt(old(items), i)
      ensures items == Apply(old(items), RemoveItem(i), default_)
      ensures multiset(items) == multiset(old(items)) - multiset{old(items)[i]}
      ensures !allowEmpty ==> |items| >= 1
    {
      RemoveAtCounts(items, i);
      if !allowEmpty {
        NeverEmptied(items, allowEmpty, RemoveItem(i), default_);
      }
      items := items[..i] + items[i + 1..];
    }
  }
}
