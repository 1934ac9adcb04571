/** What the store holds under a key and what it answers. */
module Rows {
  import opened Options
  import opened Epochs

  /** A stored row; None stands for the null result of a missing row. */
  datatype Row = Row(content: int)
  type Answer = Option<Row>

  function PutRow(m: map<Key, Row>, k: Key, a: Answer): map<Key, Row> {
    if a.Some? then m[k := a.value] else m - {k}
  }
}
