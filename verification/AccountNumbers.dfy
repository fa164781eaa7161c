/**
 The account number that travels between banks: our account id, a UUID, without its hyphens and in lower case.
 What leaves as one of our numbers comes back as the account it belongs to.
 */
module AccountNumbers {
  import opened Prelude
  import opened Fingerprint

  function LowerChar(c: char): char {
    if 'A' <= c <= 'F' then c + 32 as char else c
  }

  /** On the characters of a UUID: hexadecimal digits and hyphens. */
  function Lower(s: string): (r: string)
    ensures |r| == |s| && forall i :: 0 <= i < |s| ==> r[i] == LowerChar(s[i])
  {
    if s == [] then [] else [LowerChar(s[0])] + Lower(s[1..])
  }

  function WithoutHyphens(s: string): string {
    if s == [] then [] else (if s[0] == '-' then [] else [s[0]]) + WithoutHyphens(s[1..])
  }

  function ToExternal(accountId: string): string {
    Lower(WithoutHyphens(accountId))
  }

  predicate IsHex32(s: string) {
    |s| == 32 && forall i :: 0 <= i < 32 ==> Hex(s[i])
  }

  function Hyphenated(v: string): string
    requires |v| == 32
  {
    v[..8] + "-" + v[8..12] + "-" + v[12..16] + "-" + v[16..20] + "-" + v[20..]
  }

  /** The account id that a number names, None when it cannot be one of ours. */
  function FromExternal(value: string): Option<string> {
    if IsUuid(value) then Some(Lower(value))
    else if !IsHex32(value) then None
    else Some(Hyphenated(Lower(value)))
  }

  // ---------------------------------------------------------------- round trip

  /** A group of digits in front of a hyphen stays, the hyphen goes. */
  lemma {:induction false} DropAfterGroup(group: string, rest: string)
    requires '-' !in group
    ensures WithoutHyphens(group + "-" + rest) == group + WithoutHyphens(rest)
  {
    var s := group + "-" + rest;
    if group == [] {
      assert s[1..] == rest;
    } else {
      assert s[0] == group[0] && s[1..] == group[1..] + "-" + rest;
      DropAfterGroup(group[1..], rest);
    }
  }

  lemma {:induction false} NoHyphensToDrop(s: string)
    requires '-' !in s
    ensures WithoutHyphens(s) == s
  {
    if s == [] {
    } else {
      NoHyphensToDrop(s[1..]);
    }
  }

  lemma HyphenatedIsUndone(v: string)
    requires |v| == 32 && '-' !in v
    ensures WithoutHyphens(Hyphenated(v)) == v
  {
    var five := v[20..];
    var four := v[16..20] + "-" + five;
    var three := v[12..16] + "-" + four;
    var two := v[8..12] + "-" + three;
    assert Hyphenated(v) == v[..8] + "-" + two;
    DropAfterGroup(v[..8], two);
    DropAfterGroup(v[8..12], three);
    DropAfterGroup(v[12..16], four);
    DropAfterGroup(v[16..20], five);
    NoHyphensToDrop(five);
    assert v == v[..8] + (v[8..12] + (v[12..16] + (v[16..20] + five)));
  }

  /** The 32 digits of a UUID. */
  function DigitsOf(id: string): string
    requires |id| == 36
  {
    id[..8] + id[9..13] + id[14..18] + id[19..23] + id[24..]
  }

  /** How many hyphens come before the i-th digit of a UUID. */
  function Skipped(i: nat): nat {
    if i < 8 then 0 else if i < 12 then 1 else if i < 16 then 2 else if i < 20 then 3 else 4
  }

  lemma DigitsAt(id: string)
    requires |id| == 36
    ensures |DigitsOf(id)| == 32 && forall i :: 0 <= i < 32 ==> DigitsOf(id)[i] == id[i + Skipped(i)]
  {
  }

  lemma HyphenatedAt(v: string)
    requires |v| == 32
    ensures |Hyphenated(v)| == 36
    ensures forall i :: 0 <= i < 36 && !(i == 8 || i == 13 || i == 18 || i == 23) ==>
              Hyphenated(v)[i] == v[i - (if i < 8 then 0 else if i < 13 then 1 else if i < 18 then 2 else if i < 23 then 3 else 4)]
    ensures Hyphenated(v)[8] == Hyphenated(v)[13] == Hyphenated(v)[18] == Hyphenated(v)[23] == '-'
  {
  }

  lemma UuidHasDigits(id: string)
    requires IsUuid(id)
    ensures IsHex32(DigitsOf(id)) && id == Hyphenated(DigitsOf(id))
  {
    DigitsAt(id);
    HyphenatedAt(DigitsOf(id));
  }

  lemma UuidIsHyphenated(id: string)
    requires IsUuid(id)
    ensures IsHex32(DigitsOf(id)) && id == Hyphenated(DigitsOf(id)) && WithoutHyphens(id) == DigitsOf(id)
  {
    UuidHasDigits(id);
    HyphenatedIsUndone(DigitsOf(id));
  }

  lemma HyphenatedIsUuid(v: string)
    requires IsHex32(v)
    ensures IsUuid(Hyphenated(v)) && Lower(Hyphenated(v)) == Hyphenated(Lower(v))
  {
    HyphenatedAt(v);
    HyphenatedAt(Lower(v));
  }

  lemma LowerTwice(s: string)
    ensures Lower(Lower(s)) == Lower(s)
  {
  }

  /** An account id sent out as a number, and sent back, names the same account; and the contract allows the number. */
  lemma RoundTrip(id: string)
    requires IsUuid(id)
    ensures FromExternal(ToExternal(id)) == Some(Lower(id))
    ensures IsAccount(ToExternal(id))
  {
    UuidIsHyphenated(id);
    HyphenatedIsUuid(DigitsOf(id));
    LowerTwice(DigitsOf(id));
  }

  /** Whatever is taken for one of our numbers names a UUID in lower case, whose number it is. */
  lemma OnlyOurNumbersAreRead(value: string)
    requires FromExternal(value).Some?
    ensures var id := FromExternal(value).value;
            IsUuid(id) && Lower(id) == id && ToExternal(id) == if IsUuid(value) then ToExternal(value) else Lower(value)
  {
    var v := if IsUuid(value) then DigitsOf(value) else value;
    if IsUuid(value) {
      UuidIsHyphenated(value);
    }
    HyphenatedIsUuid(v);
    HyphenatedIsUuid(Lower(v));
    HyphenatedIsUndone(Lower(v));
    LowerTwice(v);
  }

  /** Two accounts share a number exactly when they are one account, up to the case of its id. */
  lemma NumbersAreUnique(one: string, other: string)
    requires IsUuid(one) && IsUuid(other)
    ensures ToExternal(one) == ToExternal(other) <==> Lower(one) == Lower(other)
  {
    RoundTrip(one);
    RoundTrip(other);
    assert FromExternal(one) == Some(Lower(one)) && FromExternal(other) == Some(Lower(other));
    OnlyOurNumbersAreRead(one);
    OnlyOurNumbersAreRead(other);
  }
}
