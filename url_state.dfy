/** The page's query parameters as an ordered list of name/value pairs,
    with the standard `URLSearchParams` operations the hook uses
    (`set`, `delete`, `get`, and the object built from its entries). */
module UrlState {
  import opened Wrappers
  import opened Strings

  datatype Param = Param(name: string, value: string)

  /** The value handed to `setParam`: a string or a boolean. */
  datatype Value = Text(s: string) | Flag(b: bool)

  /** JavaScript truthiness of the value. */
  predicate Truthy(v: Value) {
    match v
    case Text(s) => |s| > 0
    case Flag(b) => b
  }

  /** `String(value)` */
  function ValueString(v: Value): string {
    match v
    case Text(s) => s
    case Flag(b) => if b then "true" else "false"
  }

  predicate HasName(ps: seq<Param>, k: string) {
    exists i :: 0 <= i < |ps| && ps[i].name == k
  }

  /** `params.delete(k)`: every pair named `k` goes, the others stay in order. */
  function Delete(ps: seq<Param>, k: string): (r: seq<Param>)
    ensures |r| <= |ps|
    ensures forall p :: p in r <==> p in ps && p.name != k
  {
    if |ps| == 0 then []
    else if ps[0].name == k then Delete(ps[1..], k)
    else [ps[0]] + Delete(ps[1..], k)
  }

  /** The position of the first pair named `k`. */
  function FirstIndex(ps: seq<Param>, k: string): (i: nat)
    requires HasName(ps, k)
    ensures i < |ps| && ps[i].name == k
    ensures forall j :: 0 <= j < i ==> ps[j].name != k
    decreases |ps|
  {
    if ps[0].name == k then 0
    else
      assert HasName(ps[1..], k) by {
        var i :| 0 <= i < |ps| && ps[i].name == k;
        assert ps[1..][i - 1].name == k;
      }
      1 + FirstIndex(ps[1..], k)
  }

  /** `params.get(k)`: the value of the first pair named `k`. */
  function Get(ps: seq<Param>, k: string): (r: Option<string>)
    ensures r.Some? <==> HasName(ps, k)
    ensures r.Some? ==> r.value == ps[FirstIndex(ps, k)].value
  {
    if |ps| == 0 then None
    else if ps[0].name == k then Some(ps[0].value)
    else
      var r := Get(ps[1..], k);
      assert HasName(ps[1..], k) ==> HasName(ps, k) by {
        if HasName(ps[1..], k) {
          var i :| 0 <= i < |ps[1..]| && ps[1..][i].name == k;
          assert ps[i + 1].name == k;
        }
      }
      assert HasName(ps, k) ==> HasName(ps[1..], k) by {
        if HasName(ps, k) {
          var i :| 0 <= i < |ps| && ps[i].name == k;
          assert i > 0 && ps[1..][i - 1].name == k;
        }
      }
      r
  }

  /** `params.set(k, v)`: the first pair named `k` takes the value and the
      other pairs named `k` go; with none, the pair is appended. */
  function Set(ps: seq<Param>, k: string, v: string): (r: seq<Param>)
  {
    if |ps| == 0 then [Param(k, v)]
    else if ps[0].name == k then [Param(k, v)] + Delete(ps[1..], k)
    else [ps[0]] + Set(ps[1..], k, v)
  }

  /** `set` of a name not present appends the pair at the end. */
  lemma {:induction false} SetAppendsNew(ps: seq<Param>, k: string, v: string)
    requires !HasName(ps, k)
    ensures Set(ps, k, v) == ps + [Param(k, v)]
    decreases |ps|
  {
    if |ps| > 0 {
      assert ps[0].name != k;
      SetAppendsNew(ps[1..], k, v);
      assert ps == [ps[0]] + ps[1..];
    }
  }

  /** `set` of a present name puts the pair in place of the first pair so
      named and removes the later ones; everything before stays. */
  lemma {:induction false} SetReplacesFirst(ps: seq<Param>, k: string, v: string)
    requires HasName(ps, k)
    ensures var i := FirstIndex(ps, k);
      Set(ps, k, v) == ps[..i] + [Param(k, v)] + Delete(ps[i + 1..], k)
    decreases |ps|
  {
    if ps[0].name != k {
      assert HasName(ps[1..], k) by {
        var i :| 0 <= i < |ps| && ps[i].name == k;
        assert ps[1..][i - 1].name == k;
      }
      SetReplacesFirst(ps[1..], k, v);
      var i := FirstIndex(ps, k);
      var i' := FirstIndex(ps[1..], k);
      assert i == 1 + i';
      assert ps[..i] == [ps[0]] + ps[1..][..i'];
      assert ps[i + 1..] == ps[1..][i' + 1..];
    }
  }

  /** After `set`, reading the name gives the value set. */
  lemma {:induction false} GetAfterSet(ps: seq<Param>, k: string, v: string)
    ensures Get(Set(ps, k, v), k) == Some(v)
    decreases |ps|
  {
    if |ps| > 0 && ps[0].name != k {
      GetAfterSet(ps[1..], k, v);
    }
  }

  /** Deleting one name leaves reading any other name as it was. */
  lemma {:induction false} GetAfterDelete(ps: seq<Param>, k: string, k': string)
    ensures Get(Delete(ps, k), k') == (if k' == k then None else Get(ps, k'))
    decreases |ps|
  {
    if |ps| > 0 {
      GetAfterDelete(ps[1..], k, k');
    }
  }

  /** `set` changes reading no other name. */
  lemma {:induction false} SetKeepsOthers(ps: seq<Param>, k: string, v: string, k': string)
    requires k' != k
    ensures Get(Set(ps, k, v), k') == Get(ps, k')
    decreases |ps|
  {
    if |ps| > 0 {
      if ps[0].name == k {
        GetAfterDelete(ps[1..], k, k');
      } else {
        SetKeepsOthers(ps[1..], k, v, k');
      }
    }
  }

  /** `set` touches only the pairs named `k`: dropping them from the result
      or from the input gives the same list, and exactly one pair is left named `k`. */
  lemma {:induction false} SetOnlyTouchesName(ps: seq<Param>, k: string, v: string)
    ensures Delete(Set(ps, k, v), k) == Delete(ps, k)
    ensures |Set(ps, k, v)| == |Delete(ps, k)| + 1
    decreases |ps|
  {
    if |ps| == 0 {
    } else if ps[0].name == k {
      DeleteTwice(ps[1..], k);
    } else {
      SetOnlyTouchesName(ps[1..], k, v);
    }
  }

  lemma {:induction false} DeleteTwice(ps: seq<Param>, k: string)
    ensures Delete(Delete(ps, k), k) == Delete(ps, k)
    decreases |ps|
  {
    if |ps| > 0 {
      DeleteTwice(ps[1..], k);
    }
  }

  /** Deleting from a concatenation deletes from each part. */
  lemma {:induction false} DeleteAppend(a: seq<Param>, b: seq<Param>, k: string)
    ensures Delete(a + b, k) == Delete(a, k) + Delete(b, k)
    decreases |a|
  {
    if |a| == 0 {
      assert a + b == b;
    } else {
      assert (a + b)[1..] == a[1..] + b;
      DeleteAppend(a[1..], b, k);
    }
  }

  /** `Object.fromEntries(params.entries())`: assigning the pairs in order,
      so a later pair of the same name overwrites an earlier one. */
  function AllParams(ps: seq<Param>): (m: map<string, string>)
    ensures forall k :: k in m <==> HasName(ps, k)
    ensures forall k :: k in m ==> m[k] == ps[LastIndex(ps, k)].value
    decreases |ps|
  {
    if |ps| == 0 then map[]
    else
      var init := ps[..|ps| - 1];
      var m := AllParams(init);
      assert forall k :: HasName(ps, k) <==> HasName(init, k) || ps[|ps| - 1].name == k by {
        forall k ensures HasName(ps, k) <==> HasName(init, k) || ps[|ps| - 1].name == k {
          if HasName(ps, k) && ps[|ps| - 1].name != k {
            var i :| 0 <= i < |ps| && ps[i].name == k;
            assert init[i].name == k;
          }
          if HasName(init, k) {
            var i :| 0 <= i < |init| && init[i].name == k;
            assert ps[i].name == k;
          }
        }
      }
      var last := ps[|ps| - 1];
      m[last.name := last.value]
  }

  /** The position of the last pair named `k`. */
  function LastIndex(ps: seq<Param>, k: string): (i: nat)
    requires HasName(ps, k)
    ensures i < |ps| && ps[i].name == k
    ensures forall j :: i < j < |ps| ==> ps[j].name != k
    decreases |ps|
  {
    var init := ps[..|ps| - 1];
    if ps[|ps| - 1].name == k then |ps| - 1
    else
      assert HasName(init, k) by {
        var i :| 0 <= i < |ps| && ps[i].name == k;
        assert init[i].name == k;
      }
      LastIndex(init, k)
  }

  /** `Object.keys` of that object: each name once, in the order of its first pair. */
  function Keys(ps: seq<Param>): (ks: seq<string>)
    ensures forall k :: k in ks <==> HasName(ps, k)
    ensures forall i, j :: 0 <= i < j < |ks| ==> ks[i] != ks[j]
    decreases |ps|
  {
    if |ps| == 0 then []
    else
      var init := ps[..|ps| - 1];
      var last := ps[|ps| - 1];
      var ks := Keys(init);
      assert forall k :: HasName(ps, k) <==> HasName(init, k) || last.name == k by {
        forall k ensures HasName(ps, k) <==> HasName(init, k) || last.name == k {
          if HasName(ps, k) && last.name != k {
            var i :| 0 <= i < |ps| && ps[i].name == k;
            assert init[i].name == k;
          }
          if HasName(init, k) {
            var i :| 0 <= i < |init| && init[i].name == k;
            assert ps[i].name == k;
          }
        }
      }
      if last.name in ks then ks else ks + [last.name]
  }

  /** The keys come in the order of each name's first pair. */
  lemma {:induction false} KeysInFirstOrder(ps: seq<Param>)
    ensures forall i, j :: 0 <= i < j < |Keys(ps)| ==> FirstIndex(ps, Keys(ps)[i]) < FirstIndex(ps, Keys(ps)[j])
    decreases |ps|
  {
    if |ps| > 0 {
      var init := ps[..|ps| - 1];
      var last := ps[|ps| - 1];
      KeysInFirstOrder(init);
      var ki := Keys(init);
      forall k | k in ki ensures FirstIndex(ps, k) == FirstIndex(init, k) {
        FirstIndexOfPrefix(init, ps, k);
      }
      if last.name !in ki {
        var ks := ki + [last.name];
        assert Keys(ps) == ks;
        assert FirstIndex(ps, last.name) == |ps| - 1 by {
          assert !HasName(init, last.name);
        }
        forall i, j | 0 <= i < j < |ks| ensures FirstIndex(ps, ks[i]) < FirstIndex(ps, ks[j]) {
          assert ks[i] == ki[i] && ks[i] in ki;
          assert FirstIndex(ps, ks[i]) == FirstIndex(init, ks[i]) < |init|;
          if j < |ki| {
            assert ks[j] == ki[j] && ks[j] in ki;
            assert FirstIndex(ps, ks[j]) == FirstIndex(init, ks[j]);
            assert FirstIndex(init, ki[i]) < FirstIndex(init, ki[j]);
          }
        }
      } else {
        assert Keys(ps) == ki;
      }
    }
  }

  /** A name already present in a prefix has its first pair there. */
  lemma FirstIndexOfPrefix(init: seq<Param>, ps: seq<Param>, k: string)
    requires |init| <= |ps| && init == ps[..|init|] && HasName(init, k)
    ensures HasName(ps, k) && FirstIndex(ps, k) == FirstIndex(init, k)
  {
    var i := FirstIndex(init, k);
    assert ps[i] == init[i];
  }

  /** `ks.filter(x => x !== k)` */
  function RemoveKey(ks: seq<string>, k: string): (r: seq<string>)
    ensures forall x :: x in r <==> x in ks && x != k
  {
    if |ks| == 0 then []
    else if ks[0] == k then RemoveKey(ks[1..], k)
    else [ks[0]] + RemoveKey(ks[1..], k)
  }

  lemma {:induction false} RemoveKeyAppend(a: seq<string>, b: seq<string>, k: string)
    ensures RemoveKey(a + b, k) == RemoveKey(a, k) + RemoveKey(b, k)
    decreases |a|
  {
    if |a| == 0 {
      assert a + b == b;
    } else {
      assert (a + b)[1..] == a[1..] + b;
      RemoveKeyAppend(a[1..], b, k);
    }
  }

  /** Keys of a list with one more parameter at its end. */
  lemma KeysSnoc(init: seq<Param>, last: Param)
    ensures Keys(init + [last]) == if last.name in Keys(init) then Keys(init) else Keys(init) + [last.name]
  {
    assert (init + [last])[..|init|] == init;
  }

  /** Deleting a name drops exactly that name from the keys, the rest keeping their order. */
  lemma {:induction false} KeysAfterDelete(ps: seq<Param>, k: string)
    ensures Keys(Delete(ps, k)) == RemoveKey(Keys(ps), k)
    decreases |ps|
  {
    if |ps| > 0 {
      var init := ps[..|ps| - 1];
      var last := ps[|ps| - 1];
      assert init + [last] == ps;
      KeysAfterDelete(init, k);
      DeleteAppend(init, [last], k);
      KeysAfterDeleteSnoc(init, last, k);
    }
  }

  /** The step of the induction above: one more parameter at the end. */
  lemma KeysAfterDeleteSnoc(init: seq<Param>, last: Param, k: string)
    requires Keys(Delete(init, k)) == RemoveKey(Keys(init), k)
    requires Delete(init + [last], k) == Delete(init, k) + Delete([last], k)
    ensures Keys(Delete(init + [last], k)) == RemoveKey(Keys(init + [last]), k)
  {
    var n := last.name;
    var d := Delete(init, k);
    KeysSnoc(init, last);
    RemoveKeyAppend(Keys(init), [n], k);
    if n != k {
      assert Delete([last], k) == [last];
      KeysSnoc(d, last);
      KeptName(Keys(init), Keys(d), n, k);
    } else {
      assert Delete([last], k) == [];
      assert d + [] == d;
      DroppedName(Keys(init), k);
    }
  }

  /** A name other than the deleted one is added to the keys after the
      deletion exactly when it is added before it. */
  lemma KeptName(ks: seq<string>, kd: seq<string>, n: string, k: string)
    requires kd == RemoveKey(ks, k) && n != k
    ensures (if n in kd then kd else kd + [n]) == RemoveKey(ks, k) + (if n in ks then [] else RemoveKey([n], k))
  {
    assert RemoveKey([n], k) == [n];
    assert kd + [] == kd;
  }

  lemma DroppedName(ks: seq<string>, k: string)
    ensures RemoveKey(ks, k) + RemoveKey([k], k) == RemoveKey(ks, k)
  {
    assert RemoveKey([k], k) == [];
    assert RemoveKey(ks, k) + [] == RemoveKey(ks, k);
  }

  /** Deleting the last key leaves the earlier keys, in order. */
  lemma DeleteLastKey(ps: seq<Param>)
    requires |Keys(ps)| > 0
    ensures Keys(Delete(ps, Keys(ps)[|Keys(ps)| - 1])) == Keys(ps)[..|Keys(ps)| - 1]
  {
    var ks := Keys(ps);
    KeysAfterDelete(ps, ks[|ks| - 1]);
    RemoveLastDistinct(ks);
  }

  /** Removing the last of distinct keys leaves the ones before it. */
  lemma {:induction false} RemoveLastDistinct(ks: seq<string>)
    requires |ks| > 0
    requires forall i, j :: 0 <= i < j < |ks| ==> ks[i] != ks[j]
    ensures RemoveKey(ks, ks[|ks| - 1]) == ks[..|ks| - 1]
    decreases |ks|
  {
    var k := ks[|ks| - 1];
    if |ks| == 1 {
      assert RemoveKey(ks[1..], k) == [];
    } else {
      var tail := ks[1..];
      assert ks[0] != k;
      assert tail[|tail| - 1] == k;
      forall i, j | 0 <= i < j < |tail| ensures tail[i] != tail[j] {
        assert tail[i] == ks[i + 1] && tail[j] == ks[j + 1];
      }
      RemoveLastDistinct(tail);
      assert [ks[0]] + tail[..|tail| - 1] == ks[..|ks| - 1];
    }
  }

  /** A query piece read as a pair, split at its first "=". */
  function ParsePair(piece: string): (p: Param)
    ensures |p.name| <= |piece|
  {
    var i := IndexOf(piece, "=");
    if i < 0 then Param(piece, "") else Param(piece[..i], piece[i + 1..])
  }

  /** `new URLSearchParams(query)` for a query without its "?": the pieces
      between "&", empty ones skipped, in order. */
  function ParseQuery(query: string): seq<Param> {
    ParsePieces(NonEmpty(Split(query, '&')))
  }

  function ParsePieces(pieces: seq<string>): (ps: seq<Param>)
    ensures |ps| == |pieces|
  {
    if |pieces| == 0 then [] else [ParsePair(pieces[0])] + ParsePieces(pieces[1..])
  }

  /** A single `name=value` piece reads back as that pair, whatever the
      value holds besides "&". */
  lemma ParseSinglePair(name: string, value: string)
    requires |name| > 0
    requires forall i :: 0 <= i < |name| ==> name[i] != '=' && name[i] != '&'
    requires forall i :: 0 <= i < |value| ==> value[i] != '&'
    ensures ParseQuery(name + "=" + value) == [Param(name, value)]
  {
    var piece := name + "=" + value;
    assert forall i :: 0 <= i < |piece| ==> piece[i] != '&' by {
      forall i | 0 <= i < |piece| ensures piece[i] != '&' {
        if i < |name| { assert piece[i] == name[i]; }
        else if i > |name| { assert piece[i] == value[i - |name| - 1]; }
      }
    }
    SplitNoSeparator(piece, '&');
    NonEmptyAllNonEmpty([piece]);
    assert OccursAt(piece, "=", |name|) by {
      assert piece[|name|..|name| + 1] == "=";
    }
    forall j | 0 <= j < |name| ensures !OccursAt(piece, "=", j) {
      assert piece[j..j + 1][0] == name[j];
    }
    var i := IndexOf(piece, "=");
    assert i == |name|;
    assert piece[..i] == name && piece[i + 1..] == value;
    assert ParsePieces([piece]) == [ParsePair(piece)];
  }

  /** The hook over the page's current parameters. */
  class UrlParams {
    var params: seq<Param>

    constructor (params: seq<Param>)
      ensures this.params == params
    {
      this.params := params;
    }

    /** A truthy value is stored as its text; a falsy one removes the name. */
    method SetParam(k: string, v: Value)
      modifies this
      ensures Truthy(v) ==> params == Set(old(params), k, ValueString(v))
      ensures !Truthy(v) ==> params == Delete(old(params), k)
    {
      var newParams := params;
      if Truthy(v) {
        newParams := Set(newParams, k, ValueString(v));
      } else {
        newParams := Delete(newParams, k);
      }
      params := newParams;
    }

    method DeleteParam(k: string)
      modifies this
      ensures params == Delete(old(params), k)
    {
      params := Delete(params, k);
    }

    function GetParam(k: string): Option<string>
      reads this
    {
      Get(params, k)
    }

    function AllParamsObject(): map<string, string>
      reads this
    {
      AllParams(params)
    }
  }

  /** What the parameter setter promises, read back: a truthy value is read
      as its text (`true` as "true"), a falsy one as absent, and no other
      name changes. */
  lemma SetParamReadsBack(ps: seq<Param>, k: string, v: Value, k': string)
    requires k' != k
    ensures var r := if Truthy(v) then Set(ps, k, ValueString(v)) else Delete(ps, k);
      && Get(r, k) == (if Truthy(v) then Some(ValueString(v)) else None)
      && Get(r, k') == Get(ps, k')
    ensures v == Flag(true) ==> Get(Set(ps, k, ValueString(v)), k) == Some("true")
  {
    if Truthy(v) {
      GetAfterSet(ps, k, ValueString(v));
      SetKeepsOthers(ps, k, ValueString(v), k');
    } else {
      GetAfterDelete(ps, k, k);
      GetAfterDelete(ps, k, k');
    }
    GetAfterSet(ps, k, ValueString(v));
  }
}
