/** Decoded action chunks: one table of rows per action key. */
module ActionChunks {

  datatype Option<+T> = None | Some(value: T)

  type Row = seq<real>
  type Action = map<string, seq<Row>>

  function Min(a: int, b: int): int { if a < b then a else b }
  function Max(a: int, b: int): int { if a < b then b else a }

  /** Steps a chunk can serve: the shortest of its tables. */
  ghost function Horizon(a: Action): (h: nat)
    requires a != map[]
    ensures forall k :: k in a ==> h <= |a[k]|
    ensures exists k :: k in a && |a[k]| == h
    decreases a.Keys
  {
    var k :| k in a;
    var rest := a - {k};
    assert forall other :: other in a ==> other == k || (other in rest && rest[other] == a[other]);
    if rest == map[] then |a[k]|
    else
      var h := Horizon(rest);
      assert exists other :: other in rest && |rest[other]| == h;
      Min(|a[k]|, h)
  }

  /** `min(value.shape[0] for value in action.values())`. */
  method ShortestTable(a: Action) returns (h: nat)
    requires a != map[]
    ensures h == Horizon(a)
  {
    var key :| key in a;
    h := |a[key]|;
    var rest := a.Keys - {key};
    while rest != {}
      invariant rest <= a.Keys
      invariant forall k :: k in a && k !in rest ==> h <= |a[k]|
      invariant exists k :: k in a && |a[k]| == h
      decreases rest
    {
      var k :| k in rest;
      h := Min(h, |a[k]|);
      rest := rest - {k};
    }
  }

  /** One row of every table. */
  ghost function RowsAt(a: Action, i: nat): map<string, Row>
    requires a != map[] && i < Horizon(a)
  {
    map k | k in a :: a[k][i]
  }
}
