/**
 * The backend's helpers of go/util/util.go: membership in and removal from a
 * string slice, the conversion of a Firestore array field to strings, the
 * e-mail shape check, and two readers of a Firestore document's field map.
 *
 * A Firestore field value, Go's `interface{}`, is a `Value`. A Go string is
 * read here as a sequence of characters; the model does not separate bytes
 * from runes (see README).
 */
module GoUtil {
  import opened Optional

  /** A dynamically typed field value as the Firestore client hands it out. */
  datatype Value = Nil | Str(s: string) | Bool(b: bool) | Num(n: int) | Time(t: int) | List(items: seq<Value>)

  /** A document's fields. */
  type Document = map<string, Value>

  // ---------------------------------------------------------------------
  // Contains and Remove

  /** `Contains`: a linear scan that stops at the first equal element. */
  method Contains(slice: seq<string>, s: string) returns (found: bool)
    ensures found <==> s in slice
  {
    var i := 0;
    while i < |slice|
      invariant 0 <= i <= |slice|
      invariant s !in slice[..i]
    {
      if slice[i] == s {
        return true;
      }
      i := i + 1;
    }
    assert slice[..i] == slice;
    return false;
  }

  /** The elements of `slice` other than `s`, in their order. */
  function Without(slice: seq<string>, s: string): (out: seq<string>)
    ensures |out| <= |slice|
  {
    if |slice| == 0 then []
    else if slice[|slice| - 1] == s then Without(slice[..|slice| - 1], s)
    else Without(slice[..|slice| - 1], s) + [slice[|slice| - 1]]
  }

  /** `Remove`: a fresh slice built by appending every element that differs from `s`. */
  method Remove(slice: seq<string>, s: string) returns (out: seq<string>)
    ensures out == Without(slice, s)
  {
    out := [];
    var i := 0;
    while i < |slice|
      invariant 0 <= i <= |slice|
      invariant out == Without(slice[..i], s)
    {
      assert slice[..i + 1][..i] == slice[..i];
      if slice[i] != s {
        out := out + [slice[i]];
      }
      i := i + 1;
    }
    assert slice[..i] == slice;
  }

  /** Removal splits over concatenation: what is kept stays in its original order. */
  lemma {:induction false} WithoutAppend(a: seq<string>, b: seq<string>, s: string)
    ensures Without(a + b, s) == Without(a, s) + Without(b, s)
  {
    if |b| == 0 {
      assert a + b == a;
    } else {
      var b' := b[..|b| - 1];
      assert (a + b)[..|a + b| - 1] == a + b';
      WithoutAppend(a, b', s);
    }
  }

  /** Removal drops exactly the occurrences of `s`: the other elements keep their counts. */
  lemma {:induction false} WithoutCounts(slice: seq<string>, s: string)
    ensures multiset(Without(slice, s)) == multiset(slice)[s := 0]
    ensures |Without(slice, s)| == |slice| - multiset(slice)[s]
    ensures s !in Without(slice, s)
  {
    if |slice| > 0 {
      var pre := slice[..|slice| - 1];
      WithoutCounts(pre, s);
      assert slice == pre + [slice[|slice| - 1]];
      assert multiset(slice) == multiset(pre) + multiset{slice[|slice| - 1]};
    }
  }

  /** Removing an absent string changes nothing. */
  lemma {:induction false} WithoutAbsent(slice: seq<string>, s: string)
    requires s !in slice
    ensures Without(slice, s) == slice
  {
    if |slice| > 0 {
      var pre := slice[..|slice| - 1];
      assert s !in pre;
      WithoutAbsent(pre, s);
      assert slice == pre + [slice[|slice| - 1]];
    }
  }

  // ---------------------------------------------------------------------
  // ToStringSlice

  /** What `ToStringSlice` yields: `nil`, a string slice, or a failed type assertion. */
  datatype StringSlice = NilSlice | Slice(items: seq<string>) | Panics
  {
    /** The slice as Go code ranging over it or appending to it sees it: `nil` is empty. */
    function Elements(): seq<string>
      requires !Panics?
    {
      if Slice? then items else []
    }
  }

  /** `ToStringSlice` as a value: `nil` unless an array, and a panic at an element that is not a string. */
  function StringsOf(v: Value): StringSlice
  {
    if !v.List? then NilSlice
    else if forall i :: 0 <= i < |v.items| ==> v.items[i].Str? then
      Slice(seq(|v.items|, i requires 0 <= i < |v.items| => v.items[i].s))
    else Panics
  }

  /** The array of strings `StringsOf` reads back, as a stored field. */
  function StringsValue(items: seq<string>): (v: Value)
    ensures v.List? && |v.items| == |items|
  {
    List(seq(|items|, i requires 0 <= i < |items| => Str(items[i])))
  }

  /**
   * `ToStringSlice`: `nil` for anything but an array; otherwise a slice of
   * the same length whose every element is the array's element at that
   * index, or a panic when one of them is not a string.
   */
  method ToStringSlice(v: Value) returns (r: StringSlice)
    ensures r == StringsOf(v)
    ensures !v.List? ==> r == NilSlice
    ensures r.Slice? ==>
      (v.List? && |r.items| == |v.items| && forall i :: 0 <= i < |v.items| ==> v.items[i] == Str(r.items[i]))
    ensures v.List? && (exists i :: 0 <= i < |v.items| && !v.items[i].Str?) <==> r == Panics
  {
    if !v.List? {
      return NilSlice;
    }
    var arr := v.items;
    var out := new string[|arr|];
    var idx := 0;
    while idx < |arr|
      invariant 0 <= idx <= |arr|
      invariant forall j :: 0 <= j < idx ==> arr[j].Str? && out[j] == arr[j].s
    {
      if !arr[idx].Str? {
        return Panics;
      }
      out[idx] := arr[idx].s;
      idx := idx + 1;
    }
    r := Slice(out[..]);
    assert r.items == seq(|arr|, i requires 0 <= i < |arr| => arr[i].s);
  }

  /** Storing a string slice and converting it back gives the slice. */
  lemma StringsRoundTrip(items: seq<string>)
    ensures StringsOf(StringsValue(items)) == Slice(items)
  {
    var v := StringsValue(items);
    assert forall i :: 0 <= i < |v.items| ==> v.items[i] == Str(items[i]);
    assert seq(|v.items|, i requires 0 <= i < |v.items| => v.items[i].s) == items;
  }

  // ---------------------------------------------------------------------
  // IsValidEmail

  /**
   * An '@' at `a` and a '.' at `d` that the scan accepts: `d` comes at least
   * two characters after `a` and is not the last character, and no other
   * '@' comes before the '.'.
   */
  predicate DomainDot(email: string, a: int, d: int)
  {
    0 <= a && a + 1 < d < |email| - 1 && email[a] == '@' && email[d] == '.' &&
    forall j :: 0 <= j < d && j != a ==> email[j] != '@'
  }

  /** The shape `IsValidEmail` accepts. */
  predicate ValidEmail(email: string)
  {
    3 <= |email| <= 254 && exists a, d :: 0 <= a < d < |email| && DomainDot(email, a, d)
  }

  /**
   * `IsValidEmail`: reject a length outside 3..254, then scan once, failing
   * at a second '@' and succeeding at the first '.' that lies more than one
   * character after the '@' and before the last character.
   */
  method IsValidEmail(email: string) returns (valid: bool)
    ensures valid <==> ValidEmail(email)
    ensures |email| < 3 || |email| > 254 ==> !valid
  {
    if |email| < 3 || |email| > 254 {
      return false;
    }
    var at := -1;
    var i := 0;
    while i < |email|
      invariant 0 <= i <= |email|
      invariant at == -1 ==> forall j :: 0 <= j < i ==> email[j] != '@'
      invariant at != -1 ==> 0 <= at < i && email[at] == '@' && forall j :: 0 <= j < i && j != at ==> email[j] != '@'
      invariant forall a, d :: 0 <= d < i ==> !DomainDot(email, a, d)
    {
      var c := email[i];
      if c == '@' {
        if at != -1 {
          NoDotAfterSecondAt(email, at, i);
          return false;
        }
        at := i;
      } else if c == '.' && at != -1 && i > at + 1 && i < |email| - 1 {
        assert DomainDot(email, at, i);
        return true;
      }
      i := i + 1;
    }
    return false;
  }

  /** Once a second '@' is met, no later '.' can be accepted. */
  lemma NoDotAfterSecondAt(email: string, first: int, second: int)
    requires 0 <= first < second < |email| && email[first] == '@' && email[second] == '@'
    ensures forall a, d :: second <= d ==> !DomainDot(email, a, d)
  {
  }

  // ---------------------------------------------------------------------
  // Document fields

  /** `GetStringValue`: the field when it holds a string; "" when it is missing, `nil` or of another type. */
  function GetStringValue(data: Document, key: string): (r: string)
    ensures key in data && data[key].Str? ==> r == data[key].s
    ensures key !in data || !data[key].Str? ==> r == ""
  {
    if key in data && data[key] != Nil then
      match data[key]
      case Str(s) => s
      case _ => ""
    else ""
  }

  /** A string written to a field reads back, and writing one field leaves the others' readings alone. */
  lemma GetStringValueAfterWrite(data: Document, key: string, s: string, v: Value, other: string)
    ensures GetStringValue(data[key := Str(s)], key) == s
    ensures other != key ==> GetStringValue(data[key := v], other) == GetStringValue(data, other)
  {
  }

  /**
   * `GetMapKeys`: the keys in the order the map hands them out (left open
   * here, as Go leaves it), each exactly once.
   */
  method GetMapKeys(data: Document) returns (keys: seq<string>)
    ensures forall k :: k in keys <==> k in data
    ensures forall i, j :: 0 <= i < j < |keys| ==> keys[i] != keys[j]
    ensures |keys| == |data|
  {
    keys := [];
    var rest := data.Keys;
    while rest != {}
      invariant rest <= data.Keys
      invariant forall k :: k in keys <==> k in data && k !in rest
      invariant forall i, j :: 0 <= i < j < |keys| ==> keys[i] != keys[j]
      invariant |keys| + |rest| == |data.Keys|
      decreases |rest|
    {
      var k :| k in rest;
      keys := keys + [k];
      rest := rest - {k};
    }
    assert |data.Keys| == |data|;
  }
}
