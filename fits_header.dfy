/**
 * A FITS header as the preprocessing scripts see it through astropy: an
 * ordered list of cards, each a keyword and the outcome of reading its value.
 */
module FitsHeader {
  /** The Python value a card yields, by its type. `Other` is any other object (complex, undefined, ...). */
  datatype Value =
    | Str(s: string)
    | Int(i: int)
    | Float(f: real)
    | Bool(b: bool)
    | NoneV
    | Other(typeName: string, truthy: bool)

  /** Reading a card's value either gives a value or raises. */
  datatype Lookup = Found(v: Value) | Raises(error: string)

  datatype Card = Card(key: string, lookup: Lookup)

  type Header = seq<Card>

  /** A `(key, value)` item of a dict built from header values. */
  type Entry = (string, Value)

  /** The number of elements of an array of this shape (`np.size`). */
  function Size(shape: seq<nat>): nat
  {
    if shape == [] then 1 else shape[0] * Size(shape[1..])
  }

  /** `hdr.keys()`: the keywords, one per card, in card order (repeats included). */
  function KeysOf(h: Header): (ks: seq<string>)
    ensures |ks| == |h| && forall i :: 0 <= i < |h| ==> ks[i] == h[i].key
  {
    seq(|h|, i requires 0 <= i < |h| => h[i].key)
  }

  /** The position of the first card with keyword `k`, or `|h|` when there is none. */
  function FirstCard(h: Header, k: string): (i: nat)
    ensures i <= |h| && (i < |h| ==> h[i].key == k)
    decreases |h|
  {
    if h == [] || h[0].key == k then 0 else 1 + FirstCard(h[1..], k)
  }

  /** No card before `FirstCard` has keyword `k`. */
  lemma {:induction false} FirstCardIsFirst(h: Header, k: string)
    ensures forall j :: 0 <= j < FirstCard(h, k) ==> h[j].key != k
    decreases |h|
  {
    if h != [] && h[0].key != k {
      FirstCardIsFirst(h[1..], k);
      assert forall j :: 1 <= j < FirstCard(h, k) ==> h[j] == h[1..][j - 1];
    }
  }

  predicate HasKey(h: Header, k: string)
  {
    FirstCard(h, k) < |h|
  }

  /** Some card has keyword `k` exactly when `HasKey` holds. */
  lemma HasKeyMeaning(h: Header, k: string)
    ensures HasKey(h, k) <==> exists i :: 0 <= i < |h| && h[i].key == k
  {
    FirstCardIsFirst(h, k);
    if !HasKey(h, k) {
      assert forall i :: 0 <= i < |h| ==> h[i].key != k;
    }
  }

  /** `hdr[k]`: the value of the first card with keyword `k`; a missing keyword raises `KeyError`. */
  function Fetch(h: Header, k: string): (r: Lookup)
    ensures !HasKey(h, k) ==> r == Raises("KeyError")
    ensures HasKey(h, k) ==> r == h[FirstCard(h, k)].lookup
    decreases |h|
  {
    if h == [] then Raises("KeyError")
    else if h[0].key == k then h[0].lookup
    else Fetch(h[1..], k)
  }

  /** The failures `hdr.get` turns into its default. */
  predicate Swallowed(r: Lookup)
  {
    r.Raises? && (r.error == "KeyError" || r.error == "IndexError")
  }

  /**
   * `hdr.get(k, default)`: `hdr[k]`, except that a `KeyError` or `IndexError`
   * gives `default`; so a missing keyword gives `default`, and any other
   * failure propagates.
   */
  function Get(h: Header, k: string, default: Value): (r: Lookup)
    ensures !HasKey(h, k) ==> r == Found(default)
    ensures Swallowed(Fetch(h, k)) ==> r == Found(default)
    ensures !Swallowed(Fetch(h, k)) ==> r == Fetch(h, k)
  {
    var f := Fetch(h, k);
    if Swallowed(f) then Found(default) else f
  }
}
