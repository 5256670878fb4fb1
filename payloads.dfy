/** `generate_payloads`: the cartesian product of the event, function and
    character wordlists, in `itertools.product` order (event slowest, char
    fastest), each triple written into the template
    `char + " " + event + "=" + func + " " + char`. The generator is
    modelled by the finite sequence `list(...)` makes of it.

    The three nested loops of the product are defined once for any lists
    and any way `mk` of combining a triple; the payload generator is that
    product with the payload template. */
module Payloads {

  /** The payload template `f'{char} {event}={func} {char}'`. */
  function Payload(c: string, e: string, f: string): string {
    c + " " + e + "=" + f + " " + c
  }

  /** The template as a function of the triple in product order. */
  function Template(e: string, f: string, c: string): string {
    Payload(c, e, f)
  }

  /** The innermost loop of the product: one entry per character. */
  function ForChars<E, F, C, T>(e: E, f: F, chars: seq<C>, mk: (E, F, C) -> T): (r: seq<T>)
    ensures |r| == |chars|
  {
    if chars == [] then [] else [mk(e, f, chars[0])] + ForChars(e, f, chars[1..], mk)
  }

  /** The middle loop: for each function, every character. */
  function ForFuncs<E, F, C, T>(e: E, funcs: seq<F>, chars: seq<C>, mk: (E, F, C) -> T): (r: seq<T>)
    ensures |r| == Offset(|funcs|, |chars|)
  {
    if funcs == [] then [] else ForChars(e, funcs[0], chars, mk) + ForFuncs(e, funcs[1..], chars, mk)
  }

  /** `itertools.product(events, funcs, chars)`, each triple passed to `mk`. */
  function Product<E, F, C, T>(events: seq<E>, funcs: seq<F>, chars: seq<C>, mk: (E, F, C) -> T): seq<T>
  {
    if events == [] then [] else ForFuncs(events[0], funcs, chars, mk) + Product(events[1..], funcs, chars, mk)
  }

  /** `list(generate_payloads(events, funcs, chars))` */
  function GeneratePayloads(events: seq<string>, funcs: seq<string>, chars: seq<string>): seq<string>
  {
    Product(events, funcs, chars, Template)
  }

  // Index arithmetic, kept apart from the sequence reasoning.

  /** The start of row n of a table whose rows hold d entries each: n * d,
      written as a sum so that index reasoning stays linear. */
  function Offset(n: nat, d: nat): nat
  {
    if n == 0 then 0 else Offset(n - 1, d) + d
  }

  lemma MulStep(x: int, d: int)
    ensures (x - 1) * d + d == x * d
  {
  }

  lemma MulAtLeast(x: int, d: int)
    requires x >= 1 && d >= 0
    ensures x * d >= d
  {
    MulStep(x, d);
    if x > 1 { MulAtLeast(x - 1, d); }
  }

  lemma MulMono(x: int, y: int, d: int)
    requires x <= y && d >= 0
    ensures x * d <= y * d
  {
    if x < y { MulAtLeast(y - x, d); assert (y - x) * d == y * d - x * d; }
  }

  lemma {:induction false} OffsetIsMul(n: nat, d: nat)
    ensures Offset(n, d) == n * d
  {
    if n > 0 {
      OffsetIsMul(n - 1, d);
      MulStep(n, d);
    }
  }

  /** Entry j of row a lies before the end of a table of n rows. */
  lemma {:induction false} OffsetBound(a: nat, n: nat, d: nat, j: nat)
    requires a < n && j < d
    ensures Offset(a, d) + j < Offset(n, d)
  {
    if a < n - 1 {
      OffsetBound(a, n - 1, d, j);
    }
  }

  /** The product index in closed form. */
  lemma ProductIndex(a: nat, b: nat, c: nat, F: nat, C: nat)
    ensures a * (F * C) + b * C + c == Offset(a, Offset(F, C)) + Offset(b, C) + c
  {
    OffsetIsMul(F, C);
    OffsetIsMul(b, C);
    OffsetIsMul(a, Offset(F, C));
  }

  /** Position b * C + c of a block of F rows of C entries. */
  lemma RowIndex(b: int, c: int, F: int, C: int)
    requires 0 <= b < F && 0 <= c < C
    ensures 0 <= b * C + c < F * C
  {
    MulStep(b + 1, C);
    MulMono(b + 1, F, C);
    MulMono(0, b, C);
  }

  /** Euclidean division is determined by quotient and remainder. */
  lemma DivModUnique(n: int, d: int, q: int, r: int)
    requires d > 0 && 0 <= r < d && n == q * d + r
    ensures n / d == q && n % d == r
  {
    var q', r' := n / d, n % d;
    assert n == q' * d + r';
    if q' > q {
      MulAtLeast(q' - q, d);
    } else if q' < q {
      MulAtLeast(q - q', d);
    }
  }

  /** Splits an index of a block of F * C entries into row and column. */
  lemma IndexSplit(i: int, E: int, F: int, C: int)
    requires F > 0 && C > 0 && 0 <= i < E * (F * C)
    ensures var a, b, c := i / (F * C), (i / C) % F, i % C;
            0 <= a < E && 0 <= b < F && 0 <= c < C && i == a * (F * C) + b * C + c
  {
    var c := i % C;
    var j := i / C;
    var b := j % F;
    var a := j / F;
    assert i == j * C + c;
    assert j == a * F + b;
    assert (a * F + b) * C == a * (F * C) + b * C;
    assert i == a * (F * C) + b * C + c;
    RowIndex(b, c, F, C);
    DivModUnique(i, F * C, a, b * C + c);
    if a >= E {
      MulMono(E, a, F * C);
    }
  }

  // The product, for any lists and any combining function.

  /** Entry k of the innermost loop combines chars[k]. */
  lemma {:induction false} ForCharsAt<E, F, C, T>(e: E, f: F, chars: seq<C>, mk: (E, F, C) -> T, k: int)
    requires 0 <= k < |chars|
    ensures ForChars(e, f, chars, mk)[k] == mk(e, f, chars[k])
  {
    if k > 0 {
      ForCharsAt(e, f, chars[1..], mk, k - 1);
    }
  }

  /** Entry c of the row that funcs[b] starts. */
  lemma {:induction false} ForFuncsAt<E, F, C, T>(e: E, funcs: seq<F>, chars: seq<C>, mk: (E, F, C) -> T, b: nat, c: nat)
    requires b < |funcs| && c < |chars|
    ensures Offset(b, |chars|) + c < |ForFuncs(e, funcs, chars, mk)|
    ensures ForFuncs(e, funcs, chars, mk)[Offset(b, |chars|) + c] == mk(e, funcs[b], chars[c])
  {
    OffsetBound(b, |funcs|, |chars|, c);
    var head, rest := ForChars(e, funcs[0], chars, mk), ForFuncs(e, funcs[1..], chars, mk);
    assert ForFuncs(e, funcs, chars, mk) == head + rest;
    if b > 0 {
      ForFuncsAt(e, funcs[1..], chars, mk, b - 1, c);
      assert (head + rest)[Offset(b, |chars|) + c] == rest[Offset(b - 1, |chars|) + c];
    } else {
      ForCharsAt(e, funcs[0], chars, mk, c);
    }
  }

  lemma {:induction false} ProductLength<E, F, C, T>(events: seq<E>, funcs: seq<F>, chars: seq<C>, mk: (E, F, C) -> T)
    ensures |Product(events, funcs, chars, mk)| == Offset(|events|, Offset(|funcs|, |chars|))
  {
    if events != [] {
      ProductLength(events[1..], funcs, chars, mk);
    }
  }

  /** Entry j of the block that events[a] starts. */
  lemma {:induction false} BlockAt<E, F, C, T>(events: seq<E>, funcs: seq<F>, chars: seq<C>, mk: (E, F, C) -> T, a: nat, j: nat)
    requires a < |events| && j < Offset(|funcs|, |chars|)
    ensures Offset(a, Offset(|funcs|, |chars|)) + j < |Product(events, funcs, chars, mk)|
    ensures Product(events, funcs, chars, mk)[Offset(a, Offset(|funcs|, |chars|)) + j]
            == ForFuncs(events[a], funcs, chars, mk)[j]
  {
    var D := Offset(|funcs|, |chars|);
    var G := Product(events, funcs, chars, mk);
    assert Offset(a, D) + j < |G| by {
      ProductLength(events, funcs, chars, mk);
      OffsetBound(a, |events|, D, j);
    }
    var head, rest := ForFuncs(events[0], funcs, chars, mk), Product(events[1..], funcs, chars, mk);
    assert G == head + rest;
    if a == 0 {
      AppendLeft(head, rest, j);
    } else {
      var k := Offset(a - 1, D) + j;
      assert Offset(a, D) + j == |head| + k;
      assert rest[k] == ForFuncs(events[a], funcs, chars, mk)[j] by {
        BlockAt(events[1..], funcs, chars, mk, a - 1, j);
        assert events[1..][a - 1] == events[a];
      }
      AppendRight(head, rest, k);
    }
  }

  lemma AppendLeft<T>(head: seq<T>, rest: seq<T>, k: nat)
    requires k < |head|
    ensures (head + rest)[k] == head[k]
  {
  }

  lemma AppendRight<T>(head: seq<T>, rest: seq<T>, k: nat)
    requires k < |rest|
    ensures (head + rest)[|head| + k] == rest[k]
  {
  }

  /** The triple (events[a], funcs[b], chars[c]) sits at Offset(a, F * C) + Offset(b, C) + c. */
  lemma ProductAt<E, F, C, T>(events: seq<E>, funcs: seq<F>, chars: seq<C>, mk: (E, F, C) -> T, a: nat, b: nat, c: nat)
    requires a < |events| && b < |funcs| && c < |chars|
    ensures Offset(a, Offset(|funcs|, |chars|)) + Offset(b, |chars|) + c < |Product(events, funcs, chars, mk)|
    ensures Product(events, funcs, chars, mk)[Offset(a, Offset(|funcs|, |chars|)) + Offset(b, |chars|) + c]
            == mk(events[a], funcs[b], chars[c])
  {
    var j := Offset(b, |chars|) + c;
    assert j < Offset(|funcs|, |chars|) by { OffsetBound(b, |funcs|, |chars|, c); }
    assert ForFuncs(events[a], funcs, chars, mk)[j] == mk(events[a], funcs[b], chars[c]) by {
      ForFuncsAt(events[a], funcs, chars, mk, b, c);
    }
    BlockAt(events, funcs, chars, mk, a, j);
  }

  lemma {:induction false} ForCharsMember<E, F, C, T>(e: E, f: F, chars: seq<C>, mk: (E, F, C) -> T, p: T)
    ensures p in ForChars(e, f, chars, mk) <==> exists c :: 0 <= c < |chars| && p == mk(e, f, chars[c])
  {
    if chars != [] {
      ForCharsMember(e, f, chars[1..], mk, p);
      if exists c :: 0 <= c < |chars| && p == mk(e, f, chars[c]) {
        var c :| 0 <= c < |chars| && p == mk(e, f, chars[c]);
        if c > 0 {
          assert p == mk(e, f, chars[1..][c - 1]);
        }
      }
      if p in ForChars(e, f, chars[1..], mk) {
        var c :| 0 <= c < |chars[1..]| && p == mk(e, f, chars[1..][c]);
        assert p == mk(e, f, chars[c + 1]);
      }
    }
  }

  lemma {:induction false} ForFuncsMember<E, F, C, T>(e: E, funcs: seq<F>, chars: seq<C>, mk: (E, F, C) -> T, p: T)
    ensures p in ForFuncs(e, funcs, chars, mk) <==>
            exists b, c :: 0 <= b < |funcs| && 0 <= c < |chars| && p == mk(e, funcs[b], chars[c])
  {
    if funcs != [] {
      ForCharsMember(e, funcs[0], chars, mk, p);
      ForFuncsMember(e, funcs[1..], chars, mk, p);
      if exists b, c :: 0 <= b < |funcs| && 0 <= c < |chars| && p == mk(e, funcs[b], chars[c]) {
        var b, c :| 0 <= b < |funcs| && 0 <= c < |chars| && p == mk(e, funcs[b], chars[c]);
        if b > 0 {
          assert p == mk(e, funcs[1..][b - 1], chars[c]);
        }
      }
      if p in ForFuncs(e, funcs[1..], chars, mk) {
        var b, c :| 0 <= b < |funcs[1..]| && 0 <= c < |chars| && p == mk(e, funcs[1..][b], chars[c]);
        assert p == mk(e, funcs[b + 1], chars[c]);
      }
    }
  }

  /** Every entry of the product combines some triple of the lists. */
  lemma {:induction false} ProductEntryHasTriple<E, F, C, T>(events: seq<E>, funcs: seq<F>, chars: seq<C>, mk: (E, F, C) -> T, p: T)
    requires p in Product(events, funcs, chars, mk)
    ensures exists a, b, c :: 0 <= a < |events| && 0 <= b < |funcs| && 0 <= c < |chars|
                              && p == mk(events[a], funcs[b], chars[c])
  {
    var head, rest := ForFuncs(events[0], funcs, chars, mk), Product(events[1..], funcs, chars, mk);
    assert Product(events, funcs, chars, mk) == head + rest;
    if p in head {
      ForFuncsMember(events[0], funcs, chars, mk, p);
      var b, c :| 0 <= b < |funcs| && 0 <= c < |chars| && p == mk(events[0], funcs[b], chars[c]);
      assert 0 < |events| && p == mk(events[0], funcs[b], chars[c]);
    } else {
      ProductEntryHasTriple(events[1..], funcs, chars, mk, p);
      var a, b, c :| 0 <= a < |events[1..]| && 0 <= b < |funcs| && 0 <= c < |chars|
                     && p == mk(events[1..][a], funcs[b], chars[c]);
      assert events[1..][a] == events[a + 1];
    }
  }

  /** An entry of the product is exactly some triple, combined. */
  lemma ProductMember<E, F, C, T>(events: seq<E>, funcs: seq<F>, chars: seq<C>, mk: (E, F, C) -> T, p: T)
    ensures p in Product(events, funcs, chars, mk) <==>
            exists a, b, c :: 0 <= a < |events| && 0 <= b < |funcs| && 0 <= c < |chars|
                              && p == mk(events[a], funcs[b], chars[c])
  {
    if p in Product(events, funcs, chars, mk) {
      ProductEntryHasTriple(events, funcs, chars, mk, p);
    }
    if exists a, b, c :: 0 <= a < |events| && 0 <= b < |funcs| && 0 <= c < |chars|
                         && p == mk(events[a], funcs[b], chars[c]) {
      var a, b, c :| 0 <= a < |events| && 0 <= b < |funcs| && 0 <= c < |chars|
                     && p == mk(events[a], funcs[b], chars[c]);
      ProductAt(events, funcs, chars, mk, a, b, c);
    }
  }

  // The payload generator.

  /** The generator yields exactly E * F * C payloads. */
  lemma PayloadCount(events: seq<string>, funcs: seq<string>, chars: seq<string>)
    ensures |GeneratePayloads(events, funcs, chars)| == |events| * (|funcs| * |chars|)
  {
    var D := Offset(|funcs|, |chars|);
    assert |GeneratePayloads(events, funcs, chars)| == Offset(|events|, D) by {
      ProductLength(events, funcs, chars, Template);
    }
    assert D == |funcs| * |chars| by { OffsetIsMul(|funcs|, |chars|); }
    assert Offset(|events|, D) == |events| * D by { OffsetIsMul(|events|, D); }
  }

  /** An empty wordlist yields no payload at all. */
  lemma NoPayloadsFromEmptyList(events: seq<string>, funcs: seq<string>, chars: seq<string>)
    requires events == [] || funcs == [] || chars == []
    ensures GeneratePayloads(events, funcs, chars) == []
  {
    var D := Offset(|funcs|, |chars|);
    ProductLength(events, funcs, chars, Template);
    if events != [] {
      assert D == 0 by { OffsetIsMul(|funcs|, |chars|); }
      assert Offset(|events|, D) == 0 by { OffsetIsMul(|events|, D); }
    }
  }

  /** Product order: the payload built from events[a], funcs[b], chars[c]
      sits at position a * (F * C) + b * C + c. */
  lemma ProductOrder(events: seq<string>, funcs: seq<string>, chars: seq<string>, a: nat, b: nat, c: nat)
    requires a < |events| && b < |funcs| && c < |chars|
    ensures var i := a * (|funcs| * |chars|) + b * |chars| + c;
            i < |GeneratePayloads(events, funcs, chars)|
            && GeneratePayloads(events, funcs, chars)[i] == Payload(chars[c], events[a], funcs[b])
  {
    var i := a * (|funcs| * |chars|) + b * |chars| + c;
    assert i == Offset(a, Offset(|funcs|, |chars|)) + Offset(b, |chars|) + c by {
      ProductIndex(a, b, c, |funcs|, |chars|);
    }
    ProductAt(events, funcs, chars, Template, a, b, c);
  }

  /** The same in index form: payload i is built from
      events[i / (F * C)], funcs[(i / C) % F] and chars[i % C]. */
  lemma PayloadAtIndex(events: seq<string>, funcs: seq<string>, chars: seq<string>, i: int)
    requires 0 <= i < |GeneratePayloads(events, funcs, chars)|
    ensures |funcs| > 0 && |chars| > 0 && |funcs| * |chars| > 0
    ensures 0 <= i / (|funcs| * |chars|) < |events|
    ensures GeneratePayloads(events, funcs, chars)[i]
            == Payload(chars[i % |chars|], events[i / (|funcs| * |chars|)], funcs[(i / |chars|) % |funcs|])
  {
    var F, C := |funcs|, |chars|;
    assert F > 0 && C > 0 by {
      if F == 0 || C == 0 { NoPayloadsFromEmptyList(events, funcs, chars); }
    }
    assert i < |events| * (F * C) by { PayloadCount(events, funcs, chars); }
    assert F * C > 0 by { MulAtLeast(F, C); }
    var a, b, c := i / (F * C), (i / C) % F, i % C;
    assert 0 <= a < |events| && 0 <= b < F && 0 <= c < C && i == a * (F * C) + b * C + c by {
      IndexSplit(i, |events|, F, C);
    }
    ProductOrder(events, funcs, chars, a, b, c);
  }

  /** A string is a payload exactly when it is the template filled with an
      event, a function and a character from the lists. */
  lemma PayloadMember(events: seq<string>, funcs: seq<string>, chars: seq<string>, p: string)
    ensures p in GeneratePayloads(events, funcs, chars) <==>
            exists a, b, c :: 0 <= a < |events| && 0 <= b < |funcs| && 0 <= c < |chars|
                              && p == Payload(chars[c], events[a], funcs[b])
  {
    ProductMember(events, funcs, chars, Template, p);
  }

  /** The template puts the character at both ends, a space after the
      leading one and "=" right after the event. */
  lemma PayloadShape(c: string, e: string, f: string)
    ensures var p := Payload(c, e, f);
            |p| == 2 * |c| + |e| + |f| + 3
            && p[..|c|] == c && p[|p| - |c|..] == c
            && p[|c|] == ' ' && p[|c| + 1 + |e|] == '=' && p[|p| - |c| - 1] == ' '
  {
  }

  /** The single-payload example: events ["onload"], funcs ["alert(1)"] and
      chars ["\""] give exactly `" onload=alert(1) "`. */
  lemma SingleTripleExample()
    ensures GeneratePayloads(["onload"], ["alert(1)"], ["\""]) == ["\" onload=alert(1) \""]
  {
    var G := GeneratePayloads(["onload"], ["alert(1)"], ["\""]);
    assert |G| == 1 by { PayloadCount(["onload"], ["alert(1)"], ["\""]); }
    assert G[0] == Payload("\"", "onload", "alert(1)") by { ProductOrder(["onload"], ["alert(1)"], ["\""], 0, 0, 0); }
    assert Payload("\"", "onload", "alert(1)") == "\" onload=alert(1) \"";
  }
}
