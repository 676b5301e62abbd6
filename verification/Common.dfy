/** Small shared vocabulary: optional values, results and bounded folds over sets. */
module Common {

  datatype Option<+T> = None | Some(value: T) {
    function GetOr(default: T): T {
      match this
      case Some(v) => v
      case None => default
    }
  }

  datatype Result<+R, +E> = Ok(value: R) | Err(error: E)

  function Max(a: int, b: int): int {
    if a < b then b else a
  }

  /** `order` lists every member of `keys` exactly once. */
  ghost predicate Enumerates<T>(order: seq<T>, keys: set<T>) {
    && (forall k | k in order :: k in keys)
    && (forall k | k in keys :: k in order)
    && (forall i, j :: 0 <= i < j < |order| ==> order[i] != order[j])
  }

  /** The rows of a query, in some order. */
  method Fetch<T(==)>(found: set<T>) returns (rows: seq<T>)
    ensures Enumerates(rows, found)
  {
    rows := [];
    var left := found;
    while left != {}
      invariant left <= found
      invariant Enumerates(rows, found - left)
      decreases left
    {
      var x :| x in left;
      rows := rows + [x];
      left := left - {x};
    }
  }

  /** The rows of a query ordered by their id. */
  method FetchInOrder(found: set<nat>) returns (rows: seq<nat>)
    ensures Enumerates(rows, found)
    ensures forall i, j :: 0 <= i < j < |rows| ==> rows[i] < rows[j]
  {
    rows := [];
    var left := found;
    while left != {}
      invariant left <= found
      invariant Enumerates(rows, found - left)
      invariant forall i, j :: 0 <= i < j < |rows| ==> rows[i] < rows[j]
      invariant forall i, y :: 0 <= i < |rows| && y in left ==> rows[i] < y
      decreases left
    {
      var x := Least(left);
      rows := rows + [x];
      left := left - {x};
    }
  }

  method Least(s: set<nat>) returns (x: nat)
    requires s != {}
    ensures x in s && forall y | y in s :: x <= y
  {
    x :| x in s;
    var left := s - {x};
    while left != {}
      invariant left <= s && x in s
      invariant forall y :: y in s && y !in left ==> x <= y
      decreases left
    {
      var y :| y in left;
      x := if y < x then y else x;
      left := left - {y};
    }
  }

  /** The members of a list, as a set. */
  ghost function Members<T>(s: seq<T>): set<T> {
    set x | x in s
  }

  /** The characters `str.isspace` and the pattern `\s` accept. */
  predicate IsSpace(c: char) {
    var n := c as int;
    || 0x09 <= n <= 0x0D || 0x1C <= n <= 0x20 || n == 0x85 || n == 0xA0 || n == 0x1680
    || 0x2000 <= n <= 0x200A || n == 0x2028 || n == 0x2029 || n == 0x202F || n == 0x205F || n == 0x3000
  }

  /** ASCII letters in lower case. */
  function LowerChar(c: char): char {
    if 'A' <= c <= 'Z' then (c as int + 32) as char else c
  }

  function Lower(s: string): (r: string)
    ensures |r| == |s|
  {
    seq(|s|, i requires 0 <= i < |s| => LowerChar(s[i]))
  }

  function LStrip(s: string): string {
    if s != [] && IsSpace(s[0]) then LStrip(s[1..]) else s
  }

  function RStrip(s: string): string {
    if s != [] && IsSpace(s[|s| - 1]) then RStrip(s[..|s| - 1]) else s
  }

  function Strip(s: string): string {
    LStrip(RStrip(s))
  }
}
