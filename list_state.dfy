/** What the two list pages share: the view they render from their state,
    and the filter that drops a deleted record from the cached list. */
module ListState {
  import opened JsRuntime

  /** What a list page renders. */
  datatype ListView<R> = LoadingView | ErrorView(message: string) | EmptyView | TableView(rows: seq<R>)

  /** The page's early returns in order: the loading text while `loading`,
      else the error text when `error` is non-empty, else the "none found"
      text for an empty list, else the table. */
  function SelectView<R>(loading: bool, error: Option<string>, rows: seq<R>): (v: ListView<R>)
    ensures v.LoadingView? <==> loading
    ensures v.ErrorView? <==> !loading && Shown(error)
    ensures v.EmptyView? <==> !loading && !Shown(error) && rows == []
    ensures v.TableView? <==> !loading && !Shown(error) && rows != []
    ensures v.TableView? ==> v.rows == rows
    ensures v.ErrorView? ==> error == Some(v.message) && v.message != ""
  {
    if loading then LoadingView
    else if Shown(error) then ErrorView(error.value)
    else if rows == [] then EmptyView
    else TableView(rows)
  }

  /** `rows.filter(r => key(r) !== id)`. */
  function Without<R, K(==)>(rows: seq<R>, key: R -> K, id: K): (kept: seq<R>)
    ensures |kept| <= |rows|
    ensures forall i :: 0 <= i < |kept| ==> kept[i] in rows && key(kept[i]) != id
    ensures forall i :: 0 <= i < |rows| && key(rows[i]) != id ==> rows[i] in kept
  {
    if rows == [] then []
    else if key(rows[0]) == id then Without(rows[1..], key, id)
    else [rows[0]] + Without(rows[1..], key, id)
  }

  /** Filtering works piece by piece, so the kept records stay in their
      original relative order. */
  lemma {:induction false} WithoutAppend<R, K>(a: seq<R>, b: seq<R>, key: R -> K, id: K)
    ensures Without(a + b, key, id) == Without(a, key, id) + Without(b, key, id)
  {
    if a != [] {
      assert (a + b)[1..] == a[1..] + b;
      WithoutAppend(a[1..], b, key, id);
    } else {
      assert a + b == b;
    }
  }

  /** Filtering by an id that no record carries leaves the list as it was. */
  lemma {:induction false} WithoutAbsent<R, K>(rows: seq<R>, key: R -> K, id: K)
    requires forall i :: 0 <= i < |rows| ==> key(rows[i]) != id
    ensures Without(rows, key, id) == rows
  {
    if rows != [] {
      WithoutAbsent(rows[1..], key, id);
      assert [rows[0]] + rows[1..] == rows;
    }
  }

  /** The number of records filtering drops: those that carry the id. */
  function CountWith<R, K(==)>(rows: seq<R>, key: R -> K, id: K): nat
  {
    if rows == [] then 0 else (if key(rows[0]) == id then 1 else 0) + CountWith(rows[1..], key, id)
  }

  /** Exactly the records carrying the id are dropped. */
  lemma {:induction false} WithoutLength<R, K>(rows: seq<R>, key: R -> K, id: K)
    ensures |Without(rows, key, id)| == |rows| - CountWith(rows, key, id)
  {
    if rows != [] {
      WithoutLength(rows[1..], key, id);
    }
  }
}
