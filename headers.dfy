/** `headerArrayToMap`: the header normaliser. The host hands over headers as
    an ordered list of (name, value) pairs, in which a name may repeat. */
module Headers {
  import opened GoText

  /** One `[2]string` header pair: name, then value. */
  type Header = (Bytes, Bytes)

  /** The map the Go loop builds: starting from an empty map, each pair in turn
      is stored under its name, overwriting what an earlier pair put there. */
  function HeaderArrayToMap(headers: seq<Header>): (m: map<Bytes, Bytes>)
    ensures headers == [] ==> m == map[]
    decreases |headers|
  {
    if headers == [] then map[]
    else
      var last := headers[|headers| - 1];
      HeaderArrayToMap(headers[..|headers| - 1])[last.0 := last.1]
  }

  /** The names that occur in `headers`. */
  function Names(headers: seq<Header>): set<Bytes> {
    set i | 0 <= i < |headers| :: headers[i].0
  }

  /** No pair after position `i` has the name of pair `i`. */
  predicate IsLastWithName(headers: seq<Header>, i: int)
    requires 0 <= i < |headers|
  {
    forall j :: i < j < |headers| ==> headers[j].0 != headers[i].0
  }

  /** The map has exactly the names of the input as keys. */
  lemma {:induction false} HeaderKeys(headers: seq<Header>)
    ensures HeaderArrayToMap(headers).Keys == Names(headers)
    decreases |headers|
  {
    if headers != [] {
      var init := headers[..|headers| - 1];
      HeaderKeys(init);
      assert Names(headers) == Names(init) + {headers[|headers| - 1].0} by {
        forall k | k in Names(headers) ensures k in Names(init) + {headers[|headers| - 1].0} {
          var i :| 0 <= i < |headers| && headers[i].0 == k;
          if i < |headers| - 1 {
            assert init[i] == headers[i];
          }
        }
        forall k | k in Names(init) ensures k in Names(headers) {
          var i :| 0 <= i < |init| && init[i].0 == k;
          assert headers[i] == init[i];
        }
      }
    }
  }

  /** Last write wins: each name maps to the value of the last pair with that name. */
  lemma {:induction false} HeaderLastWins(headers: seq<Header>, i: int)
    requires 0 <= i < |headers| && IsLastWithName(headers, i)
    ensures headers[i].0 in HeaderArrayToMap(headers)
    ensures HeaderArrayToMap(headers)[headers[i].0] == headers[i].1
    decreases |headers|
  {
    var n := |headers|;
    if i < n - 1 {
      var init := headers[..n - 1];
      assert init[i] == headers[i];
      assert IsLastWithName(init, i) by {
        forall j | i < j < |init| ensures init[j].0 != init[i].0 {
          assert init[j] == headers[j];
        }
      }
      HeaderLastWins(init, i);
      assert headers[n - 1].0 != headers[i].0;
    }
  }

  /** Two maps that both satisfy the key and last-write-wins laws for the same
      input are the same map: the two laws pin the normaliser down. */
  lemma HeaderMapUnique(headers: seq<Header>, m: map<Bytes, Bytes>)
    requires m.Keys == Names(headers)
    requires forall i :: 0 <= i < |headers| && IsLastWithName(headers, i) ==> m[headers[i].0] == headers[i].1
    ensures m == HeaderArrayToMap(headers)
  {
    var h := HeaderArrayToMap(headers);
    HeaderKeys(headers);
    forall k | k in m ensures m[k] == h[k] {
      var i := LastIndexOf(headers, k);
      HeaderLastWins(headers, i);
    }
  }

  /** The position of the last pair named `k`, for a name that occurs. */
  function LastIndexOf(headers: seq<Header>, k: Bytes): (i: int)
    requires k in Names(headers)
    ensures 0 <= i < |headers| && headers[i].0 == k && IsLastWithName(headers, i)
    decreases |headers|
  {
    var n := |headers|;
    if headers[n - 1].0 == k then n - 1
    else
      var init := headers[..n - 1];
      assert k in Names(init) by {
        var j :| 0 <= j < n && headers[j].0 == k;
        assert init[j] == headers[j];
      }
      var i := LastIndexOf(init, k);
      assert headers[i] == init[i];
      i
  }

  /** A repeated name keeps its later value. */
  lemma DuplicateNameLastWins(a: Bytes, v1: Bytes, v2: Bytes)
    ensures HeaderArrayToMap([(a, v1), (a, v2)]) == map[a := v2]
  {
  }
}
