/** Optional values, and the few string operations several components share. */
module Text {

  datatype Option<+T> = None | Some(value: T)

  /** The unit separator, U+001F: it joins key material and cursor payloads. */
  const UNIT_SEPARATOR: char := '\U{1f}'

  /** Renders parts with a separator between each two neighbours. */
  function Join(parts: seq<string>, separator: char): (text: string)
  {
    if |parts| == 0 then ""
    else if |parts| == 1 then parts[0]
    else parts[0] + [separator] + Join(parts[1..], separator)
  }

  /** The first index of a character, or the length of the text when it does not occur. */
  function IndexOf(text: string, c: char): (i: nat)
    ensures i <= |text|
    ensures c !in text[..i]
    ensures i < |text| ==> text[i] == c
  {
    if text == "" then 0
    else if text[0] == c then 0
    else
      var rest := IndexOf(text[1..], c);
      assert text[..rest + 1] == [text[0]] + text[1..][..rest];
      rest + 1
  }

  /** Cuts a text at every separator; a text without one is a single part. */
  function Split(text: string, separator: char): (parts: seq<string>)
    ensures |parts| >= 1
    decreases |text|
  {
    var i := IndexOf(text, separator);
    if i == |text| then [text]
    else [text[..i]] + Split(text[i + 1..], separator)
  }

  /** No part contains the separator, so the parts can be told apart after joining. */
  predicate Separable(parts: seq<string>, separator: char)
  {
    forall i :: 0 <= i < |parts| ==> separator !in parts[i]
  }

  lemma {:induction false} IndexOfConcat(head: string, c: char, tail: string)
    requires c !in head
    ensures IndexOf(head + [c] + tail, c) == |head|
    ensures IndexOf(head, c) == |head|
  {
    if head == "" {
    } else {
      assert (head + [c] + tail)[1..] == head[1..] + [c] + tail;
      assert forall i :: 0 <= i < |head| - 1 ==> head[1..][i] == head[i + 1];
      IndexOfConcat(head[1..], c, tail);
    }
  }

  /** Splitting takes off the part before the first separator. */
  lemma SplitPrepend(head: string, separator: char, tail: string)
    requires separator !in head
    ensures Split(head + [separator] + tail, separator) == [head] + Split(tail, separator)
  {
    IndexOfConcat(head, separator, tail);
    var whole := head + [separator] + tail;
    assert whole[..|head|] == head;
    assert whole[|head| + 1..] == tail;
  }

  lemma {:induction false} SplitJoin(parts: seq<string>, separator: char)
    requires |parts| >= 1
    requires Separable(parts, separator)
    ensures Split(Join(parts, separator), separator) == parts
  {
    if |parts| == 1 {
      IndexOfConcat(parts[0], separator, "");
    } else {
      hide Split;
      SplitJoin(parts[1..], separator);
      SplitPrepend(parts[0], separator, Join(parts[1..], separator));
    }
  }

  lemma {:induction false} JoinSplit(text: string, separator: char)
    ensures Join(Split(text, separator), separator) == text
    decreases |text|
  {
    var i := IndexOf(text, separator);
    if i < |text| {
      var rest := text[i + 1..];
      JoinSplit(rest, separator);
      var parts := Split(rest, separator);
      assert Split(text, separator) == [text[..i]] + parts;
      hide *;
      JoinPrepend(text[..i], parts, separator);
      assert text == text[..i] + [separator] + rest;
    }
  }

  lemma JoinOne(part: string, separator: char)
    ensures Join([part], separator) == part
  {
  }

  lemma JoinPrepend(head: string, parts: seq<string>, separator: char)
    requires |parts| >= 1
    ensures Join([head] + parts, separator) == head + [separator] + Join(parts, separator)
  {
    assert ([head] + parts)[1..] == parts;
  }
}
