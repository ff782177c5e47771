/**
 * Text built by formatting a list of items and concatenating the results:
 * Python's `"".join(f(x) for x in xs)`, or a loop doing `text += f(x)`.
 */
module Texts {

  /** `f(xs[0]) + f(xs[1]) + ...`, in list order. */
  function Join<T>(xs: seq<T>, f: T -> string): string {
    if xs == [] then "" else Join(xs[..|xs| - 1], f) + f(xs[|xs| - 1])
  }

  /** Joining two lists one after the other joins their pieces one after the other. */
  lemma {:induction false} JoinAppend<T>(a: seq<T>, b: seq<T>, f: T -> string)
    ensures Join(a + b, f) == Join(a, f) + Join(b, f)
    decreases |b|
  {
    if b == [] {
      assert a + b == a;
    } else {
      var c, b' := a + b, b[..|b| - 1];
      assert c[..|c| - 1] == a + b';
      assert c[|c| - 1] == b[|b| - 1];
      JoinAppend(a, b', f);
    }
  }

  /** The piece of item `k` comes right after the pieces of the items before it. */
  lemma {:induction false} JoinInOrder<T>(xs: seq<T>, k: nat, f: T -> string)
    requires k < |xs|
    ensures Join(xs[..k], f) + f(xs[k]) <= Join(xs, f)
  {
    var head, tail := xs[..k + 1], xs[k + 1..];
    assert xs == head + tail;
    JoinAppend(head, tail, f);
    JoinAppend(xs[..k], [xs[k]], f);
    assert xs[..k] + [xs[k]] == head;
    JoinSingle(xs[k], f);
  }

  /** A one-item list is joined to that item's piece. */
  lemma JoinSingle<T>(x: T, f: T -> string)
    ensures Join([x], f) == f(x)
  {
    assert [x][..0] == [];
  }

  /** The first piece of a non-empty join. */
  lemma {:induction false} JoinFirst<T>(xs: seq<T>, f: T -> string)
    requires xs != []
    ensures Join(xs, f) == f(xs[0]) + Join(xs[1..], f)
  {
    assert xs == [xs[0]] + xs[1..];
    JoinAppend([xs[0]], xs[1..], f);
    assert [xs[0]][..0] == [];
  }

  /** `for x in items: text += format(x)`. */
  method AppendFormatted<T>(text: string, items: seq<T>, format: T -> string) returns (r: string)
    ensures r == text + Join(items, format)
  {
    r := text;
    for i := 0 to |items|
      invariant r == text + Join(items[..i], format)
    {
      assert items[..i + 1][..i] == items[..i];
      r := r + format(items[i]);
    }
    assert items[..|items|] == items;
  }
}
