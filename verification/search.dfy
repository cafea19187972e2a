/** The global `findIndexOfString`, the enumerate-and-append copy loop, and the
    optional-binding example that consumes the search result. */
module Search {
  import opened Wrappers
  import Decimal

  /** `i` is the first position of `key` in `items`. */
  predicate IsFirstIndex(key: string, items: seq<string>, i: nat) {
    i < |items| && items[i] == key && forall j :: 0 <= j < i ==> items[j] != key
  }

  /** Reference definition of the search, by recursion on the items. */
  function IndexOf(key: string, items: seq<string>): (r: Option<nat>)
    ensures r.Some? ==> IsFirstIndex(key, items, r.value)
    ensures r.None? <==> key !in items
  {
    if |items| == 0 then None
    else if items[0] == key then Some(0)
    else
      match IndexOf(key, items[1..])
      case None => None
      case Some(i) => Some(i + 1)
  }

  /** `findIndexOfString`: walks `array.enumerate()` and returns the index of the
      first element equal to `key` (the Swift parameter
      `string`), or `nil` when the loop finishes. */
  method FindIndexOfString(key: string, items: seq<string>) returns (r: Option<nat>)
    ensures r.Some? ==> IsFirstIndex(key, items, r.value)
    ensures r.None? <==> key !in items
    ensures r == IndexOf(key, items)
  {
    var index := 0;
    while index < |items|
      invariant 0 <= index <= |items|
      invariant forall j :: 0 <= j < index ==> items[j] != key
    {
      if items[index] == key {
        return Some(index);
      }
      index := index + 1;
    }
    return None;
  }

  /** The copy loop `for (index, value) in array.enumerate() { newArray.append(value) }`. */
  method CopyByEnumeration(items: seq<string>) returns (newArray: seq<string>)
    ensures |newArray| == |items|
    ensures forall i :: 0 <= i < |items| ==> newArray[i] == items[i]
  {
    newArray := [];
    var index := 0;
    while index < |items|
      invariant 0 <= index <= |items|
      invariant newArray == items[..index]
    {
      newArray := newArray + [items[index]];
      index := index + 1;
    }
  }

  /** The text before the interpolated index in the `if let` branch. */
  const YepPrefix: string := "yep, index is "

  /** `if let indexValue = index { "yep, index is \(indexValue)" } else { "nope" }`:
      "nope" exactly when there is no index, and otherwise a text that reads
      back, after its fixed prefix, as the bound index. */
  function BindingMessage(index: Option<nat>): (r: string)
    ensures r == "nope" <==> index.None?
    ensures index.Some? ==> |r| > |YepPrefix| && r[..|YepPrefix|] == YepPrefix
    ensures index.Some? && Decimal.InRange(index.value) ==>
      Decimal.Parse(r[|YepPrefix|..]) == Some(index.value)
  {
    match index
    case Some(indexValue) =>
      var r := YepPrefix + Decimal.Show(indexValue);
      assert r[..|YepPrefix|] == YepPrefix && r[|YepPrefix|..] == Decimal.Show(indexValue);
      assert r[0] == 'y';
      if Decimal.InRange(indexValue) then
        Decimal.ParseShow(indexValue);
        r
      else r
    case None => "nope"
  }

  /** The binding applied to the search, for every key and list: it says "nope"
      exactly when the key is absent, and otherwise names the first position
      holding the key. */
  lemma BindingOfSearch(key: string, items: seq<string>)
    ensures BindingMessage(IndexOf(key, items)) == "nope" <==> key !in items
    ensures key in items && |items| <= Decimal.IntMax ==>
      var msg := BindingMessage(IndexOf(key, items));
      && |msg| > |YepPrefix|
      && IsFirstIndex(key, items, IndexOf(key, items).value)
      && Decimal.Parse(msg[|YepPrefix|..]) == IndexOf(key, items)
  {
  }

  /** `findIndexOfString("Ian", ["Ben", "Ian"])` is 1, so the binding succeeds. */
  lemma BindingExample()
    ensures IndexOf("Ian", ["Ben", "Ian"]) == Some(1)
    ensures BindingMessage(IndexOf("Ian", ["Ben", "Ian"])) == "yep, index is 1"
  {
    assert ["Ben", "Ian"][1] == "Ian";
  }

  /** The copy of `["Ian", "Ben", "Elisabeth"]` holds the same three names. */
  method CopyExample() returns (newArray: seq<string>)
    ensures newArray == ["Ian", "Ben", "Elisabeth"]
  {
    newArray := CopyByEnumeration(["Ian", "Ben", "Elisabeth"]);
  }
}
