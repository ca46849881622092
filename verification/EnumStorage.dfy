/** Enum members stored as snake_case text, lower or upper, and read back through a lookup. */
module EnumStorage {
  import opened Text

  // ----- the ASCII part of the case functions

  predicate IsUpper(c: char) { 'A' <= c <= 'Z' }

  predicate IsLower(c: char) { 'a' <= c <= 'z' }

  predicate IsDigit(c: char) { '0' <= c <= '9' }

  function ToLower(c: char): char
  {
    if IsUpper(c) then c - 'A' + 'a' else c
  }

  function ToUpper(c: char): char
  {
    if IsLower(c) then c - 'a' + 'A' else c
  }

  /** Letters and digits: what an ASCII identifier without underscores is made of. */
  predicate Plain(name: string)
  {
    forall i :: 0 <= i < |name| ==> IsUpper(name[i]) || IsLower(name[i]) || IsDigit(name[i])
  }

  predicate Pascal(name: string)
  {
    name != "" && IsUpper(name[0]) && Plain(name)
  }

  // ----- ToSnakeCase and its inverse

  /** The characters after the first, each capital with an underscore before it. */
  function SnakeTail(name: string): string
  {
    if name == "" then ""
    else (if IsUpper(name[0]) then ['_', ToLower(name[0])] else [ToLower(name[0])]) + SnakeTail(name[1..])
  }

  function Snake(name: string): string
  {
    if name == "" then "" else [ToLower(name[0])] + SnakeTail(name[1..])
  }

  lemma {:induction false} SnakeTailSnoc(name: string, c: char)
    ensures SnakeTail(name + [c]) == SnakeTail(name) + if IsUpper(c) then ['_', ToLower(c)] else [ToLower(c)]
  {
    if name == "" {
    } else {
      SnakeTailSnoc(name[1..], c);
      assert (name + [c])[1..] == name[1..] + [c];
    }
  }

  lemma SnakeOfNothing()
    ensures Snake("") == ""
  {
  }

  lemma SnakeSnoc(name: string, c: char)
    ensures Snake(name + [c]) ==
            Snake(name) + if name != "" && IsUpper(c) then ['_', ToLower(c)] else [ToLower(c)]
  {
    if name != "" {
      SnakeTailSnoc(name[1..], c);
      assert (name + [c])[1..] == name[1..] + [c];
    }
  }

  /** `ToSnakeCase`. */
  method ToSnakeCase(pascalCase: string) returns (snake: string)
    ensures snake == Snake(pascalCase)
  {
    hide Snake, SnakeTail;
    SnakeOfNothing();
    var builder := "";
    for index := 0 to |pascalCase|
      invariant builder == Snake(pascalCase[..index])
    {
      var character := pascalCase[index];
      if index > 0 && IsUpper(character) {
        builder := builder + ['_'];
      }
      builder := builder + [ToLower(character)];
      SnakeSnoc(pascalCase[..index], character);
      assert pascalCase[..index + 1] == pascalCase[..index] + [character];
    }
    assert pascalCase[..|pascalCase|] == pascalCase;
    return builder;
  }

  /** Undoing the tail: a letter after an underscore was a capital. */
  function PascalTail(snake: string): string
  {
    if snake == "" then ""
    else if snake[0] == '_' && |snake| > 1 then [ToUpper(snake[1])] + PascalTail(snake[2..])
    else [snake[0]] + PascalTail(snake[1..])
  }

  function PascalOf(snake: string): string
  {
    if snake == "" then "" else [ToUpper(snake[0])] + PascalTail(snake[1..])
  }

  lemma CaseRoundTrip(c: char)
    ensures IsUpper(c) ==> ToUpper(ToLower(c)) == c && IsLower(ToLower(c)) && ToLower(c) != '_'
    ensures !IsUpper(c) ==> ToLower(c) == c && ToLower(ToUpper(c)) == c
    ensures ToUpper('_') == '_' == ToLower('_') && !IsUpper('_')
  {
  }

  lemma {:induction false} TailRoundTrip(name: string)
    requires Plain(name)
    ensures PascalTail(SnakeTail(name)) == name
  {
    if name == "" {
    } else {
      TailRoundTrip(name[1..]);
      CaseRoundTrip(name[0]);
      var rest := SnakeTail(name[1..]);
      if IsUpper(name[0]) {
        assert SnakeTail(name)[2..] == rest;
      } else {
        assert SnakeTail(name)[1..] == rest;
      }
      assert name == [name[0]] + name[1..];
    }
  }

  /** The stored form of a PascalCase name determines it, by an explicit inverse. */
  lemma SnakeRoundTrip(name: string)
    requires Pascal(name)
    ensures PascalOf(Snake(name)) == name
  {
    TailRoundTrip(name[1..]);
    CaseRoundTrip(name[0]);
    assert Snake(name)[1..] == SnakeTail(name[1..]);
  }

  /** Two names without underscores are stored alike exactly when they differ in the first letter's case. */
  lemma StoredAlikeIff(a: string, b: string)
    requires Plain(a) && Plain(b)
    ensures Snake(a) == Snake(b) <==>
            || (a == "" && b == "")
            || (a != "" && b != "" && ToLower(a[0]) == ToLower(b[0]) && a[1..] == b[1..])
  {
    if a != "" && b != "" {
      TailRoundTrip(a[1..]);
      TailRoundTrip(b[1..]);
      assert Snake(a)[0] == ToLower(a[0]) && Snake(b)[0] == ToLower(b[0]);
      assert Snake(a)[1..] == SnakeTail(a[1..]) && Snake(b)[1..] == SnakeTail(b[1..]);
    }
  }

  lemma {:induction false} TailNeverGrows(name: string)
    ensures |PascalTail(SnakeTail(name))| <= |name|
    decreases |name|
  {
    if name == "" {
    } else {
      var rest := SnakeTail(name[1..]);
      TailNeverGrows(name[1..]);
      if IsUpper(name[0]) {
        assert SnakeTail(name)[2..] == rest;
      } else {
        assert SnakeTail(name)[1..] == rest;
        if name[0] == '_' && rest != "" {
          UnderscoreTail(name);
          TailNeverGrows(name[2..]);
        }
      }
    }
  }

  lemma SnakeTailCons(c: char, rest: string)
    ensures SnakeTail([c] + rest) == (if IsUpper(c) then ['_', ToLower(c)] else [ToLower(c)]) + SnakeTail(rest)
  {
    assert ([c] + rest)[1..] == rest;
  }

  lemma PascalTailCons(c: char, rest: string)
    ensures PascalTail(['_', c] + rest) == [ToUpper(c)] + PascalTail(rest)
    ensures c != '_' ==> PascalTail([c] + rest) == [c] + PascalTail(rest)
  {
    assert (['_', c] + rest)[2..] == rest;
    assert ([c] + rest)[1..] == rest;
  }

  lemma UnderscoreBeforeCapital(c: char, more: string)
    requires IsUpper(c)
    ensures PascalTail(['_'] + (['_', ToLower(c)] + more)) == ['_', ToLower(c)] + PascalTail(more)
  {
    CaseRoundTrip(c);
    hide *;
    var l := ToLower(c);
    assert ['_'] + (['_', l] + more) == ['_', '_'] + ([l] + more);
    PascalTailCons('_', [l] + more);
    PascalTailCons(l, more);
    assert ['_'] + ([l] + PascalTail(more)) == ['_', l] + PascalTail(more);
  }

  lemma UnderscoreBeforeOther(c: char, more: string)
    ensures PascalTail(['_'] + ([c] + more)) == [ToUpper(c)] + PascalTail(more)
  {
    hide *;
    assert ['_'] + ([c] + more) == ['_', c] + more;
    PascalTailCons(c, more);
  }

  lemma UnderscoreForm(c: char, tail: string)
    ensures SnakeTail(['_'] + ([c] + tail)) ==
            if IsUpper(c) then ['_'] + (['_', ToLower(c)] + SnakeTail(tail)) else ['_'] + ([c] + SnakeTail(tail))
  {
    CaseRoundTrip(c);
    hide *;
    SnakeTailCons('_', [c] + tail);
    SnakeTailCons(c, tail);
  }

  /** What the inverse makes of an underscore that something follows. */
  lemma UnderscoreTail(name: string)
    requires |name| > 1 && name[0] == '_'
    ensures PascalTail(SnakeTail(name)) ==
            if IsUpper(name[1]) then ['_', ToLower(name[1])] + PascalTail(SnakeTail(name[2..]))
            else [ToUpper(name[1])] + PascalTail(SnakeTail(name[2..]))
  {
    hide *;
    var c, tail := name[1], name[2..];
    assert name == ['_'] + ([c] + tail);
    UnderscoreForm(c, tail);
    if IsUpper(c) {
      UnderscoreBeforeCapital(c, SnakeTail(tail));
    } else {
      UnderscoreBeforeOther(c, SnakeTail(tail));
    }
  }

  /** No underscore but, possibly, the last character. */
  predicate OnlyTrailingUnderscore(name: string)
  {
    forall i :: 0 <= i < |name| - 1 ==> name[i] != '_'
  }

  lemma {:induction false} TailRecoveredIff(name: string)
    ensures PascalTail(SnakeTail(name)) == name <==> OnlyTrailingUnderscore(name)
  {
    if name == "" {
    } else {
      var rest := SnakeTail(name[1..]);
      TailRecoveredIff(name[1..]);
      assert name == [name[0]] + name[1..];
      assert OnlyTrailingUnderscore(name) <==>
             (|name| > 1 ==> name[0] != '_') && OnlyTrailingUnderscore(name[1..]) by {
        assert forall i :: 0 <= i < |name| - 1 ==> name[1..][i] == name[i + 1];
        assert forall i :: 1 <= i < |name| ==> name[i] == name[1..][i - 1];
      }
      if IsUpper(name[0]) {
        CaseRoundTrip(name[0]);
        assert SnakeTail(name)[2..] == rest;
      } else if name[0] != '_' || |name| == 1 {
        assert SnakeTail(name)[1..] == rest;
      } else {
        UnderscoreTail(name);
        TailNeverGrows(name[2..]);
        if IsUpper(name[1]) {
          CaseRoundTrip(name[1]);
          assert PascalTail(SnakeTail(name))[1] == ToLower(name[1]) != name[1];
        }
      }
    }
  }

  /**
   For every name: the inverse recovers it from its snake form if and only if it does not begin with a small
   letter and has no underscore between its first and its last character. `A_b`, stored like `AB`, is lost.
   */
  lemma RecoveredIff(name: string)
    requires name != ""
    ensures PascalOf(Snake(name)) == name <==> !IsLower(name[0]) && OnlyTrailingUnderscore(name[1..])
  {
    TailRecoveredIff(name[1..]);
    assert Snake(name)[1..] == SnakeTail(name[1..]);
    assert name == [name[0]] + name[1..];
    assert ToUpper(ToLower(name[0])) == name[0] <==> !IsLower(name[0]);
  }

  function Uppercase(text: string): (upper: string)
    ensures |upper| == |text|
  {
    seq(|text|, i requires 0 <= i < |text| => ToUpper(text[i]))
  }

  predicate NoCapitals(text: string)
  {
    forall i :: 0 <= i < |text| ==> !IsUpper(text[i])
  }

  lemma {:induction false} SnakeHasNoCapitals(name: string)
    ensures NoCapitals(SnakeTail(name)) && NoCapitals(Snake(name))
  {
    if name == "" {
    } else {
      SnakeHasNoCapitals(name[1..]);
    }
  }

  lemma UppercaseInjective(a: string, b: string)
    requires NoCapitals(a) && NoCapitals(b) && Uppercase(a) == Uppercase(b)
    ensures a == b
  {
    forall i | 0 <= i < |a|
      ensures a[i] == b[i]
    {
      assert Uppercase(a)[i] == Uppercase(b)[i];
      CaseRoundTrip(a[i]);
      CaseRoundTrip(b[i]);
    }
  }

  // ----- EnumStorage

  /** The two storage forms. */
  function StoredForm(upper: bool, member: string): string
  {
    if upper then Uppercase(Snake(member)) else Snake(member)
  }

  lemma StoredFormInjective(upper: bool, a: string, b: string)
    requires Pascal(a) && Pascal(b)
    ensures StoredForm(upper, a) == StoredForm(upper, b) <==> a == b
  {
    SnakeHasNoCapitals(a);
    SnakeHasNoCapitals(b);
    SnakeRoundTrip(a);
    SnakeRoundTrip(b);
    hide Snake, Pascal, PascalOf, Uppercase;
    if StoredForm(upper, a) == StoredForm(upper, b) && upper {
      UppercaseInjective(Snake(a), Snake(b));
    }
  }

  const UNKNOWN := "Unknown"

  /** `BuildLookup`: every member but the unset sentinel; a duplicate key throws. */
  function BuildLookup(upper: bool, members: seq<string>): Option<map<string, string>>
  {
    if members == [] then Some(map[])
    else
      var last := members[|members| - 1];
      var before := BuildLookup(upper, members[..|members| - 1]);
      if before.None? || last == UNKNOWN then before
      else if StoredForm(upper, last) in before.value then None
      else Some(before.value[StoredForm(upper, last) := last])
  }

  /** The converter's `Parse`; nothing stands for the exception. */
  function ParseStored(lookup: map<string, string>, stored: string): Option<string>
  {
    if stored in lookup then Some(lookup[stored]) else None
  }

  /** The members of an enum: distinct PascalCase names. */
  predicate EnumMembers(members: seq<string>)
  {
    && (forall i :: 0 <= i < |members| ==> Pascal(members[i]))
    && (forall i, j :: 0 <= i < j < |members| ==> members[i] != members[j])
  }

  ghost predicate Reads(upper: bool, members: seq<string>, lookup: map<string, string>)
  {
    && (forall stored :: stored in lookup ==>
          && lookup[stored] in members && lookup[stored] != UNKNOWN
          && stored == StoredForm(upper, lookup[stored]))
    && (forall member :: member in members && member != UNKNOWN ==>
          && StoredForm(upper, member) in lookup && lookup[StoredForm(upper, member)] == member)
  }

  lemma {:induction false} LookupReads(upper: bool, members: seq<string>)
    requires EnumMembers(members)
    ensures BuildLookup(upper, members).Some? && Reads(upper, members, BuildLookup(upper, members).value)
  {
    if members == [] {
    } else {
      hide Pascal, StoredForm;
      var n := |members| - 1;
      var before, last := members[..n], members[n];
      LookupReads(upper, before);
      var smaller := BuildLookup(upper, before).value;
      assert members == before + [last];
      forall member | member in before
        ensures StoredForm(upper, member) == StoredForm(upper, last) ==> member == last
      {
        var i :| 0 <= i < n && before[i] == member;
        assert members[i] == member;
        StoredFormInjective(upper, member, last);
      }
      assert last !in before;
      LookupNext(upper, before, last, smaller);
    }
  }

  lemma LookupNext(upper: bool, before: seq<string>, last: string, lookup: map<string, string>)
    requires Reads(upper, before, lookup) && last !in before
    requires forall member :: member in before && StoredForm(upper, member) == StoredForm(upper, last) ==>
               member == last
    ensures StoredForm(upper, last) !in lookup
    ensures Reads(upper, before + [last],
                  if last == UNKNOWN then lookup else lookup[StoredForm(upper, last) := last])
  {
    hide StoredForm;
    var stored := StoredForm(upper, last);
  }

  /**
   For every enum of PascalCase members the lookup can be built, a stored member reads back as itself, and
   nothing else is read: not an unknown text, and not the unset sentinel's own form.
   */
  lemma StorageIsLossless(upper: bool, members: seq<string>, stored: string, member: string)
    requires EnumMembers(members)
    ensures BuildLookup(upper, members).Some?
    ensures ParseStored(BuildLookup(upper, members).value, stored) == Some(member) <==>
            member in members && member != "Unknown" && stored == StoredForm(upper, member)
    ensures "Unknown" in members ==>
              ParseStored(BuildLookup(upper, members).value, StoredForm(upper, "Unknown")) == None
  {
    hide StoredForm, BuildLookup, Pascal;
    LookupReads(upper, members);
    var lookup := BuildLookup(upper, members).value;
    var form := StoredForm(upper, UNKNOWN);
    if UNKNOWN in members && form in lookup {
      var other := lookup[form];
      var i :| 0 <= i < |members| && members[i] == other;
      var j :| 0 <= j < |members| && members[j] == UNKNOWN;
      StoredFormInjective(upper, other, UNKNOWN);
      assert false;
    }
  }
}
