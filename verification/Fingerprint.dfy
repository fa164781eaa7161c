/**
 The idempotency fingerprint of a transfer request: its fields joined with '|'. Descriptions may hold the
 separator too, and still no two different validated requests share a fingerprint.
 */
module Fingerprint {
  import opened Prelude
  import InterbankRules

  const TTL_TOLERANCE_MS := 5_000

  // -------------------------------------------------------------- field formats

  predicate Digit(c: char) {
    '0' <= c <= '9'
  }

  predicate Hex(c: char) {
    Digit(c) || 'a' <= c <= 'f' || 'A' <= c <= 'F'
  }

  predicate Digits(s: string) {
    forall i :: 0 <= i < |s| ==> Digit(s[i])
  }

  predicate IsUuid(s: string) {
    && |s| == 36
    && forall i :: 0 <= i < 36 ==> if i == 8 || i == 13 || i == 18 || i == 23 then s[i] == '-' else Hex(s[i])
  }

  predicate IsBankCode(s: string) {
    |s| == 6 && s[..4] == "BANK" && Digits(s[4..])
  }

  predicate IsAccount(s: string) {
    1 <= |s| <= 34 && forall i :: 0 <= i < |s| ==> Digit(s[i]) || 'A' <= s[i] <= 'Z' || 'a' <= s[i] <= 'z' || s[i] == '-'
  }

  /** One to five digits, a point, two digits. */
  predicate IsAmount(s: string) {
    4 <= |s| <= 8 && Digits(s[..|s| - 3]) && s[|s| - 3] == '.' && Digits(s[|s| - 2..])
  }

  predicate IsPositive(s: string) {
    exists i :: 0 <= i < |s| && '1' <= s[i] <= '9'
  }

  /** YYYY-MM-DDThh:mm:ss, an optional fraction, Z. */
  predicate IsIsoUtc(s: string) {
    && |s| >= 20
    && (forall i :: 0 <= i < 19 ==>
          if i == 4 || i == 7 then s[i] == '-'
          else if i == 10 then s[i] == 'T'
          else if i == 13 || i == 16 then s[i] == ':'
          else Digit(s[i]))
    && s[|s| - 1] == 'Z'
    && (|s| == 20 || (|s| >= 22 && s[19] == '.' && Digits(s[20..|s| - 1])))
  }

  /** How long texts may be: accounts from 1 to 34, amounts with 1 to 5 digits before the point. */
  lemma FormatBoundaries(n: nat)
    ensures IsAccount(seq(n, i => 'a')) <==> 1 <= n <= 34
    ensures IsAmount(seq(n, i => '7') + ".00") <==> 1 <= n <= 5
    ensures IsBankCode("BANK" + seq(n, i => '7')) <==> n == 2
  {
    var digits := seq(n, i => '7');
    var amount, bank := digits + ".00", "BANK" + digits;
    assert amount[..|amount| - 3] == digits && amount[|amount| - 3] == '.' && amount[|amount| - 2..] == "00";
    assert bank[..4] == "BANK" && bank[4..] == digits;
  }

  // ---------------------------------------------------------------- validation

  datatype Json = Text(text: string) | NotText
  datatype Body = NotAnObject | Object(fields: map<string, Json>)

  datatype Problem = NoObject | UnknownField(name: string) | BadField(name: string) | BadLifetime

  const FIELDS := ["interbankTransferId", "originBankCode", "destinationBankCode", "originAccount", "destinationAccount",
                   "amount", "currency", "description", "createdAt", "expiresAt"]

  /** A field's text; None when it is absent or not a string. */
  function TextOf(fields: map<string, Json>, name: string): Option<string> {
    if name in fields && fields[name].Text? then Some(fields[name].text) else None
  }

  predicate Fits(fields: map<string, Json>, name: string, format: string -> bool) {
    TextOf(fields, name).Some? && format(TextOf(fields, name).value)
  }

  /** `Date.parse`, on strings of the format. */
  type Clock = string -> Option<int>

  function Instant(fields: map<string, Json>, name: string, clock: Clock): Option<int> {
    if Fits(fields, name, s => IsIsoUtc(s)) then clock(TextOf(fields, name).value) else None
  }

  predicate LifetimeFits(created: int, expires: int) {
    -TTL_TOLERANCE_MS <= expires - created - InterbankRules.TTL_MS <= TTL_TOLERANCE_MS
  }

  predicate DescriptionFits(fields: map<string, Json>) {
    "description" in fields ==> fields["description"].Text? && |fields["description"].text| <= 140
  }

  predicate Valid(body: Body, clock: Clock) {
    && body.Object?
    && (forall k :: k in body.fields ==> k in FIELDS)
    && Fits(body.fields, "interbankTransferId", s => IsUuid(s))
    && Fits(body.fields, "originBankCode", s => IsBankCode(s))
    && Fits(body.fields, "destinationBankCode", s => IsBankCode(s))
    && Fits(body.fields, "originAccount", s => IsAccount(s))
    && Fits(body.fields, "destinationAccount", s => IsAccount(s))
    && Fits(body.fields, "amount", s => IsAmount(s) && IsPositive(s))
    && Fits(body.fields, "currency", s => s == "GTQ")
    && DescriptionFits(body.fields)
    && Instant(body.fields, "createdAt", clock).Some?
    && Instant(body.fields, "expiresAt", clock).Some?
    && LifetimeFits(Instant(body.fields, "createdAt", clock).value, Instant(body.fields, "expiresAt", clock).value)
  }

  method Check(fields: map<string, Json>, name: string, format: string -> bool, errors: seq<Problem>) returns (r: seq<Problem>)
    ensures r == if Fits(fields, name, format) then errors else errors + [BadField(name)]
  {
    r := errors;
    if !Fits(fields, name, format) {
      r := r + [BadField(name)];
    }
  }

  /** Every problem of a request body; none exactly when the body is valid. */
  method ValidateTransferRequest(body: Body, clock: Clock) returns (errors: seq<Problem>)
    ensures errors == [] <==> Valid(body, clock)
  {
    if body.NotAnObject? {
      return [NoObject];
    }
    var b := body.fields;
    errors := [];
    var keys := b.Keys;
    while keys != {}
      invariant keys <= b.Keys
      invariant errors == [] <==> forall k :: k in b && k !in keys ==> k in FIELDS
      decreases keys
    {
      var k := Any(keys);
      keys := keys - {k};
      if k !in FIELDS {
        errors := errors + [UnknownField(k)];
      }
    }
    errors := Check(b, "interbankTransferId", s => IsUuid(s), errors);
    errors := Check(b, "originBankCode", s => IsBankCode(s), errors);
    errors := Check(b, "destinationBankCode", s => IsBankCode(s), errors);
    errors := Check(b, "originAccount", s => IsAccount(s), errors);
    errors := Check(b, "destinationAccount", s => IsAccount(s), errors);
    errors := Check(b, "amount", s => IsAmount(s) && IsPositive(s), errors);
    errors := Check(b, "currency", s => s == "GTQ", errors);
    if !DescriptionFits(b) {
      errors := errors + [BadField("description")];
    }
    var created := Instant(b, "createdAt", clock);
    var expires := Instant(b, "expiresAt", clock);
    if created.None? {
      errors := errors + [BadField("createdAt")];
    }
    if expires.None? {
      errors := errors + [BadField("expiresAt")];
    }
    if created.Some? && expires.Some? && !LifetimeFits(created.value, expires.value) {
      errors := errors + [BadLifetime];
    }
  }

  // --------------------------------------------------------------- fingerprint

  datatype Request = Request(
    id: string, originBank: string, destinationBank: string, originAccount: string, destinationAccount: string,
    amount: string, currency: string, description: Option<string>, createdAt: string, expiresAt: string)

  function Described(description: Option<string>): string {
    if description.Some? then description.value else ""
  }

  function RequestOf(body: Body, clock: Clock): Request
    requires Valid(body, clock)
  {
    var text := name => Described(TextOf(body.fields, name));
    Request(text("interbankTransferId"), text("originBankCode"), text("destinationBankCode"), text("originAccount"),
            text("destinationAccount"), text("amount"), text("currency"), TextOf(body.fields, "description"),
            text("createdAt"), text("expiresAt"))
  }

  /** The body that carries a request; a missing description is left out. */
  function BodyOf(r: Request): Body {
    var fields := map["interbankTransferId" := Text(r.id), "originBankCode" := Text(r.originBank),
                      "destinationBankCode" := Text(r.destinationBank), "originAccount" := Text(r.originAccount),
                      "destinationAccount" := Text(r.destinationAccount), "amount" := Text(r.amount),
                      "currency" := Text(r.currency), "createdAt" := Text(r.createdAt), "expiresAt" := Text(r.expiresAt)];
    Object(if r.description.Some? then fields["description" := Text(r.description.value)] else fields)
  }

  predicate WellFormed(r: Request, clock: Clock) {
    && IsUuid(r.id) && IsBankCode(r.originBank) && IsBankCode(r.destinationBank)
    && IsAccount(r.originAccount) && IsAccount(r.destinationAccount)
    && IsAmount(r.amount) && IsPositive(r.amount) && r.currency == "GTQ"
    && (r.description.Some? ==> |r.description.value| <= 140)
    && IsIsoUtc(r.createdAt) && IsIsoUtc(r.expiresAt)
    && clock(r.createdAt).Some? && clock(r.expiresAt).Some?
    && LifetimeFits(clock(r.createdAt).value, clock(r.expiresAt).value)
  }

  lemma NamesDiffer()
    ensures forall i, j :: 0 <= i < j < |FIELDS| ==> FIELDS[i] != FIELDS[j]
  {
    assert FIELDS[0][0] != FIELDS[2][0] && FIELDS[8][0] != FIELDS[9][0];
    assert |FIELDS[0]| == 19 && |FIELDS[1]| == 14 && |FIELDS[2]| == 19 && |FIELDS[3]| == 13 && |FIELDS[4]| == 18;
    assert |FIELDS[5]| == 6 && |FIELDS[6]| == 8 && |FIELDS[7]| == 11 && |FIELDS[8]| == 9 && |FIELDS[9]| == 9;
  }

  predicate Carries(f: map<string, Json>, r: Request) {
    && TextOf(f, "interbankTransferId") == Some(r.id) && TextOf(f, "originBankCode") == Some(r.originBank)
    && TextOf(f, "destinationBankCode") == Some(r.destinationBank) && TextOf(f, "originAccount") == Some(r.originAccount)
    && TextOf(f, "destinationAccount") == Some(r.destinationAccount) && TextOf(f, "amount") == Some(r.amount)
    && TextOf(f, "currency") == Some(r.currency) && TextOf(f, "description") == r.description
    && TextOf(f, "createdAt") == Some(r.createdAt) && TextOf(f, "expiresAt") == Some(r.expiresAt)
  }

  lemma BodyCarries(r: Request)
    ensures Carries(BodyOf(r).fields, r)
    ensures "description" in BodyOf(r).fields <==> r.description.Some?
    ensures forall k :: k in BodyOf(r).fields ==> k in FIELDS
  {
    NamesDiffer();
    var n := FIELDS;
    var fields := map[n[0] := Text(r.id), n[1] := Text(r.originBank), n[2] := Text(r.destinationBank), n[3] := Text(r.originAccount),
                      n[4] := Text(r.destinationAccount), n[5] := Text(r.amount), n[6] := Text(r.currency),
                      n[8] := Text(r.createdAt), n[9] := Text(r.expiresAt)];
    assert BodyOf(r).fields == if r.description.Some? then fields[n[7] := Text(r.description.value)] else fields;
  }

  lemma ValidIsWellFormed(f: map<string, Json>, r: Request, clock: Clock)
    requires Carries(f, r) && ("description" in f <==> r.description.Some?) && Valid(Object(f), clock)
    ensures WellFormed(r, clock)
  {
  }

  lemma WellFormedIsValid(f: map<string, Json>, r: Request, clock: Clock)
    requires Carries(f, r) && ("description" in f <==> r.description.Some?) && forall k :: k in f ==> k in FIELDS
    requires WellFormed(r, clock)
    ensures Valid(Object(f), clock)
  {
  }

  lemma RequestIsCarried(f: map<string, Json>, r: Request, clock: Clock)
    requires Carries(f, r) && Valid(Object(f), clock)
    ensures RequestOf(Object(f), clock) == r
  {
  }

  /** A request is valid in its body exactly when it is well formed, and is then read back as it was. */
  lemma BodyRoundTrip(r: Request, clock: Clock)
    ensures Valid(BodyOf(r), clock) <==> WellFormed(r, clock)
    ensures Valid(BodyOf(r), clock) ==> RequestOf(BodyOf(r), clock) == r
  {
    var f := BodyOf(r).fields;
    BodyCarries(r);
    if WellFormed(r, clock) {
      WellFormedIsValid(f, r, clock);
    }
    if Valid(Object(f), clock) {
      ValidIsWellFormed(f, r, clock);
      RequestIsCarried(f, r, clock);
    }
  }

  lemma SampleFormats()
    ensures IsUuid("01234567-89ab-cdef-0123-456789abcdef")
    ensures IsIsoUtc("2025-01-01T00:00:00Z") && IsIsoUtc("2025-01-01T00:03:00Z")
    ensures "2025-01-01T00:00:00Z" != "2025-01-01T00:03:00Z"
    ensures IsBankCode("BANK01") && IsAccount("a") && IsAmount("1.00") && IsPositive("1.00")
  {
    assert "2025-01-01T00:00:00Z"[15] != "2025-01-01T00:03:00Z"[15];
    assert "1.00"[0] == '1';
  }

  /** Well-formed requests exist, and the lifetime decides: from 175 to 185 seconds. */
  lemma LifetimeDecides(lifetime: int) returns (r: Request, clock: Clock)
    ensures WellFormed(r, clock) <==> 175_000 <= lifetime <= 185_000
  {
    SampleFormats();
    var created, expires := "2025-01-01T00:00:00Z", "2025-01-01T00:03:00Z";
    r := Request("01234567-89ab-cdef-0123-456789abcdef", "BANK01", "BANK01", "a", "a", "1.00", "GTQ", None, created, expires);
    clock := t => Some(if t == created then 0 else lifetime);
    assert clock(created) == Some(0) && clock(expires) == Some(lifetime);
  }

  function Join(parts: seq<string>): string {
    if parts == [] then "" else if |parts| == 1 then parts[0] else parts[0] + "|" + Join(parts[1..])
  }

  function Canonical(r: Request): string {
    Join([r.id, r.originBank, r.destinationBank, r.originAccount, r.destinationAccount, r.amount, r.currency,
          Described(r.description), r.createdAt, r.expiresAt])
  }

  predicate Plain(s: string) {
    '|' !in s
  }

  /** Every field but the description is free of the separator. */
  predicate Separable(r: Request) {
    && Plain(r.id) && Plain(r.originBank) && Plain(r.destinationBank) && Plain(r.originAccount) && Plain(r.destinationAccount)
    && Plain(r.amount) && Plain(r.currency) && Plain(r.createdAt) && Plain(r.expiresAt)
  }

  lemma FormatsArePlain(s: string)
    ensures IsUuid(s) || IsBankCode(s) || IsAccount(s) || IsAmount(s) || IsIsoUtc(s) || s == "GTQ" ==> Plain(s)
  {
    if IsBankCode(s) {
      assert s == s[..4] + s[4..];
    }
    if IsAmount(s) {
      assert s == s[..|s| - 3] + ['.'] + s[|s| - 2..];
    }
    if IsIsoUtc(s) && |s| > 20 {
      assert s == s[..20] + s[20..|s| - 1] + ['Z'];
    }
  }

  lemma ValidIsSeparable(body: Body, clock: Clock)
    requires Valid(body, clock)
    ensures Separable(RequestOf(body, clock))
  {
    var r := RequestOf(body, clock);
    FormatsArePlain(r.id);
    FormatsArePlain(r.originBank);
    FormatsArePlain(r.destinationBank);
    FormatsArePlain(r.originAccount);
    FormatsArePlain(r.destinationAccount);
    FormatsArePlain(r.amount);
    FormatsArePlain(r.currency);
    FormatsArePlain(r.createdAt);
    FormatsArePlain(r.expiresAt);
  }

  /** Two texts that agree up to their first separator agree before it and after it. */
  lemma {:induction false} SplitFirst(x: string, u: string, y: string, v: string)
    requires Plain(x) && Plain(y) && x + "|" + u == y + "|" + v
    ensures x == y && u == v
  {
    var s, t := x + "|" + u, y + "|" + v;
    assert s[0] == t[0];
    if x != "" && y != "" {
      assert x[1..] + "|" + u == s[1..] && y[1..] + "|" + v == t[1..];
      SplitFirst(x[1..], u, y[1..], v);
    } else {
      assert u == s[|x| + 1..] && v == t[|y| + 1..];
    }
  }

  /** And likewise from their last separator. */
  lemma {:induction false} SplitLast(u: string, x: string, v: string, y: string)
    requires Plain(x) && Plain(y) && u + "|" + x == v + "|" + y
    ensures x == y && u == v
  {
    var s, t := u + "|" + x, v + "|" + y;
    assert s[|s| - 1] == t[|t| - 1];
    if x != "" && y != "" {
      var x', y' := x[..|x| - 1], y[..|y| - 1];
      assert u + "|" + x' == s[..|s| - 1] && v + "|" + y' == t[..|t| - 1];
      SplitLast(u, x', v, y');
      assert x == x' + [x[|x| - 1]] && y == y' + [y[|y| - 1]];
    } else {
      assert u == s[..|u|] && v == t[..|v|];
    }
  }

  /** Plain parts at the front of a joined text can be read off. */
  lemma {:induction false} JoinSplitsFront(a: seq<string>, b: seq<string>, n: nat)
    requires |a| == |b| && n < |a| && Join(a) == Join(b)
    requires forall i :: 0 <= i < n ==> Plain(a[i]) && Plain(b[i])
    ensures a[..n] == b[..n] && Join(a[n..]) == Join(b[n..])
  {
    if n > 0 {
      SplitFirst(a[0], Join(a[1..]), b[0], Join(b[1..]));
      JoinSplitsFront(a[1..], b[1..], n - 1);
      assert a[..n] == [a[0]] + a[1..][..n - 1] && b[..n] == [b[0]] + b[1..][..n - 1];
      assert a[n..] == a[1..][n - 1..] && b[n..] == b[1..][n - 1..];
    } else {
      assert a[0..] == a && b[0..] == b;
    }
  }

  lemma JoinOfThree(d: string, c: string, e: string)
    ensures Join([d, c, e]) == (d + "|" + c) + "|" + e
  {
    assert Join([c, e]) == c + "|" + Join([e]);
    assert Join([d, c, e]) == d + "|" + Join([c, e]);
  }

  /** The same in every field, a missing description counting as an empty one. */
  predicate SameRequest(a: Request, b: Request) {
    && a.id == b.id && a.originBank == b.originBank && a.destinationBank == b.destinationBank
    && a.originAccount == b.originAccount && a.destinationAccount == b.destinationAccount
    && a.amount == b.amount && a.currency == b.currency && a.createdAt == b.createdAt && a.expiresAt == b.expiresAt
    && (if a.description.Some? then a.description.value else "") == (if b.description.Some? then b.description.value else "")
  }

  /** Two separable requests have one fingerprint exactly when they agree field by field. */
  lemma CanonicalIsInjective(a: Request, b: Request)
    requires Separable(a) && Separable(b)
    ensures Canonical(a) == Canonical(b) <==> SameRequest(a, b)
  {
    var da, db := Described(a.description), Described(b.description);
    var pa := [a.id, a.originBank, a.destinationBank, a.originAccount, a.destinationAccount, a.amount, a.currency, da, a.createdAt, a.expiresAt];
    var pb := [b.id, b.originBank, b.destinationBank, b.originAccount, b.destinationAccount, b.amount, b.currency, db, b.createdAt, b.expiresAt];
    if Canonical(a) == Canonical(b) {
      JoinSplitsFront(pa, pb, 7);
      assert forall i :: 0 <= i < 7 ==> pa[..7][i] == pa[i] && pb[..7][i] == pb[i];
      assert pa[0] == pb[0] && pa[1] == pb[1] && pa[2] == pb[2] && pa[3] == pb[3] && pa[4] == pb[4] && pa[5] == pb[5] && pa[6] == pb[6];
      assert pa[7..] == [da, a.createdAt, a.expiresAt] && pb[7..] == [db, b.createdAt, b.expiresAt];
      JoinOfThree(da, a.createdAt, a.expiresAt);
      JoinOfThree(db, b.createdAt, b.expiresAt);
      SplitLast(da + "|" + a.createdAt, a.expiresAt, db + "|" + b.createdAt, b.expiresAt);
      SplitLast(da, a.createdAt, db, b.createdAt);
    }
  }

  /** Over all valid bodies, the fingerprints differ exactly when the requests differ in some field. */
  lemma FingerprintsTellRequestsApart(stored: Body, again: Body, clock: Clock)
    requires Valid(stored, clock) && Valid(again, clock)
    ensures var a, b := RequestOf(stored, clock), RequestOf(again, clock);
            Canonical(a) == Canonical(b) <==> SameRequest(a, b)
  {
    ValidIsSeparable(stored, clock);
    ValidIsSeparable(again, clock);
    CanonicalIsInjective(RequestOf(stored, clock), RequestOf(again, clock));
  }
}
