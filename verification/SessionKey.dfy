/** The key under which a session is stored, and which calls share one. */
module SessionKey {
  import opened Accounting

  function Digit(d: nat): (c: char)
    requires d < 10
    ensures '0' <= c <= '9'
  {
    '0' + d as char
  }

  /** `std::to_string`. */
  function Decimal(n: int): (s: string)
    ensures s != ""
    decreases n < 0, if n < 0 then -n else n
  {
    if n < 0 then "-" + Decimal(-n)
    else if n < 10 then [Digit(n)]
    else Decimal(n / 10) + [Digit(n % 10)]
  }

  function CreateKey(r: CallRef): string {
    r.callId + Decimal(r.role) + Decimal(r.function_)
  }

  /** The codes that `role_of_node_t` and `node_functionality_t` name. */
  predicate Named(r: CallRef) {
    0 <= r.role <= 1 && 0 <= r.function_ <= 15
  }

  lemma DecimalOfNamed(n: int)
    requires 0 <= n <= 15
    ensures Decimal(n) == if n < 10 then [Digit(n)] else ['1', Digit(n - 10)]
  {
    if n >= 10 {
      assert n / 10 == 1 && n % 10 == n - 10;
      assert Decimal(1) == [Digit(1)];
    }
  }

  lemma KeyOfNamed(r: CallRef)
    requires Named(r)
    ensures CreateKey(r) == r.callId + [Digit(r.role)]
                            + (if r.function_ < 10 then [Digit(r.function_)] else ['1', Digit(r.function_ - 10)])
  {
    DecimalOfNamed(r.role);
    DecimalOfNamed(r.function_);
  }

  /** `long` is the call id of `short` with the role digit of `short` appended,
      played on the terminating side by a function ten below that of `short`. */
  predicate Aliases(short: CallRef, long: CallRef) {
    && 0 <= short.role <= 1
    && long.callId == short.callId + [Digit(short.role)]
    && long.role == 1
    && short.function_ == long.function_ + 10
  }

  lemma AliasesCollide(short: CallRef, long: CallRef)
    requires Named(short) && Named(long) && Aliases(short, long)
    ensures CreateKey(short) == CreateKey(long)
  {
    KeyOfNamed(short);
    KeyOfNamed(long);
    assert short.callId + [Digit(short.role)] + ['1', Digit(short.function_ - 10)]
        == short.callId + [Digit(short.role)] + ['1'] + [Digit(long.function_)];
  }

  lemma SameLengthSeparates(a: CallRef, b: CallRef)
    requires Named(a) && Named(b) && |a.callId| == |b.callId|
    requires CreateKey(a) == CreateKey(b)
    ensures a == b
  {
    KeyOfNamed(a);
    KeyOfNamed(b);
    var k, n := CreateKey(a), |a.callId|;
    assert a.callId == k[..n] == b.callId;
    assert Digit(a.role) == k[n] == Digit(b.role);
    assert |k| == n + 1 + (if a.function_ < 10 then 1 else 2);
    assert k[|k| - 1] == Digit(a.function_ % 10) == Digit(b.function_ % 10);
  }

  lemma LongerCollidesOnlyByAlias(short: CallRef, long: CallRef)
    requires Named(short) && Named(long) && |short.callId| < |long.callId|
    requires CreateKey(short) == CreateKey(long)
    ensures Aliases(short, long)
  {
    KeyOfNamed(short);
    KeyOfNamed(long);
    var k, n := CreateKey(short), |short.callId|;
    assert |long.callId| == n + 1 && |k| == n + 3;
    assert long.callId == k[..n + 1] == short.callId + [Digit(short.role)];
    assert k[n + 1] == '1' == Digit(long.role);
    assert k[n + 2] == Digit(short.function_ - 10) == Digit(long.function_);
  }

  /** Two calls share a key exactly when they are the same call or one aliases
      the other. Keys are therefore injective for one call id and for call ids
      of equal length, and not across call ids of different lengths. */
  lemma KeySeparation(a: CallRef, b: CallRef)
    requires Named(a) && Named(b)
    ensures CreateKey(a) == CreateKey(b) <==> a == b || Aliases(a, b) || Aliases(b, a)
    ensures |a.callId| == |b.callId| ==> !Aliases(a, b) && !Aliases(b, a)
  {
    if Aliases(a, b) {
      AliasesCollide(a, b);
    } else if Aliases(b, a) {
      AliasesCollide(b, a);
    } else if CreateKey(a) == CreateKey(b) {
      if |a.callId| == |b.callId| {
        SameLengthSeparates(a, b);
      } else if |a.callId| < |b.callId| {
        LongerCollidesOnlyByAlias(a, b);
      } else {
        LongerCollidesOnlyByAlias(b, a);
      }
    }
  }

  // ----- codes outside the enumerations, which `parse_body` accepts

  lemma {:induction false} DecimalOfNat(n: nat)
    ensures forall i :: 0 <= i < |Decimal(n)| ==> '0' <= Decimal(n)[i] <= '9'
    ensures |Decimal(n)| > 1 ==> Decimal(n)[0] != '0'
    ensures |Decimal(n)| == 1 <==> n < 10
  {
    if n >= 10 {
      DecimalOfNat(n / 10);
    }
  }

  lemma {:induction false} NatDecimalsDiffer(m: nat, n: nat)
    requires Decimal(m) == Decimal(n)
    ensures m == n
  {
    DecimalOfNat(m);
    DecimalOfNat(n);
    var d, k := Decimal(m), |Decimal(m)| - 1;
    if m < 10 {
      assert d[0] == Digit(m) == Digit(n);
    } else {
      assert Decimal(m / 10) == d[..k] == Decimal(n / 10);
      NatDecimalsDiffer(m / 10, n / 10);
      assert d[k] == Digit(m % 10) == Digit(n % 10);
    }
  }

  /** No two integers are written alike. */
  lemma DecimalsDiffer(m: int, n: int)
    requires Decimal(m) == Decimal(n)
    ensures m == n
  {
    if m >= 0 { DecimalOfNat(m); }
    if n >= 0 { DecimalOfNat(n); }
    assert (m < 0) == (Decimal(m)[0] == '-') && (n < 0) == (Decimal(n)[0] == '-');
    if m < 0 {
      assert Decimal(-m) == Decimal(m)[1..] == Decimal(n)[1..] == Decimal(-n);
      NatDecimalsDiffer(-m, -n);
    } else {
      NatDecimalsDiffer(m, n);
    }
  }

  /** Digits of the role of `long` are the leading digits of the function of `short`. */
  predicate Shifts(short: CallRef, long: CallRef) {
    && Decimal(short.role) < Decimal(long.role)
    && Decimal(short.function_) == Decimal(long.role)[|Decimal(short.role)|..] + Decimal(long.function_)
  }

  function Codes(r: CallRef): string {
    Decimal(r.role) + Decimal(r.function_)
  }

  lemma KeyIsCodes(r: CallRef)
    ensures CreateKey(r) == r.callId + Codes(r)
  {
  }

  lemma ShiftsCollide(short: CallRef, long: CallRef)
    requires Shifts(short, long)
    ensures Codes(short) == Codes(long)
  {
    var n := |Decimal(short.role)|;
    assert Decimal(long.role) == Decimal(short.role) + Decimal(long.role)[n..];
  }

  lemma CodesCollideOnlyByShift(a: CallRef, b: CallRef)
    requires Codes(a) == Codes(b) && |Decimal(a.role)| <= |Decimal(b.role)|
    ensures (a.role == b.role && a.function_ == b.function_) || Shifts(a, b)
  {
    var k, m, n := Codes(a), |Decimal(a.role)|, |Decimal(b.role)|;
    assert Decimal(a.role) == k[..m] && Decimal(b.role) == k[..n];
    assert Decimal(a.function_) == k[m..] && Decimal(b.function_) == k[n..];
    if m == n {
      DecimalsDiffer(a.role, b.role);
      DecimalsDiffer(a.function_, b.function_);
    } else {
      assert k[m..] == k[..n][m..] + k[n..];
    }
  }

  /** For one call id, whatever the codes: two calls share a key exactly when
      they are the same or digits can be shifted between role and function. So
      roles written with equally many digits never collide. */
  lemma OneCallSeparation(a: CallRef, b: CallRef)
    requires a.callId == b.callId
    ensures CreateKey(a) == CreateKey(b) <==> a == b || Shifts(a, b) || Shifts(b, a)
    ensures |Decimal(a.role)| == |Decimal(b.role)| ==> !Shifts(a, b) && !Shifts(b, a)
  {
    KeyIsCodes(a);
    KeyIsCodes(b);
    if CreateKey(a) == CreateKey(b) {
      assert Codes(a) == CreateKey(a)[|a.callId|..] == Codes(b);
      if |Decimal(a.role)| <= |Decimal(b.role)| {
        CodesCollideOnlyByShift(a, b);
      } else {
        CodesCollideOnlyByShift(b, a);
      }
    }
    if Shifts(a, b) { ShiftsCollide(a, b); }
    if Shifts(b, a) { ShiftsCollide(b, a); }
  }

  /** The only calls that share the key of a named one with the same call id:
      role 11 with the function ten lower, for role 1 and a function above 9. */
  lemma UnnamedCodesCollide(a: CallRef, b: CallRef)
    requires Named(a) && a.callId == b.callId && a != b
    ensures CreateKey(a) == CreateKey(b)
            <==> a.role == 1 && a.function_ >= 10 && b.role == 11 && b.function_ == a.function_ - 10
  {
    OneCallSeparation(a, b);
    DecimalOfNamed(a.role);
    DecimalOfNamed(a.function_);
    if a.function_ >= 10 {
      DecimalOfNamed(11);
      DecimalOfNamed(a.function_ - 10);
      if Shifts(a, b) {
        ShiftOfTwoDigits(a, b);
      }
    }
  }

  lemma LeadingZero(n: int)
    ensures |Decimal(n)| > 1 ==> Decimal(n)[0] != Digit(0)
  {
    if n >= 0 {
      DecimalOfNat(n);
    }
  }

  lemma ShiftOfTwoDigits(a: CallRef, b: CallRef)
    requires Named(a) && a.function_ >= 10 && Shifts(a, b)
    ensures a.role == 1 && b.role == 11 && b.function_ == a.function_ - 10
  {
    DecimalOfNamed(a.role);
    DecimalOfNamed(a.function_);
    DecimalOfNamed(a.function_ - 10);
    DecimalOfNamed(11);
    var moved := Decimal(b.role)[1..];
    assert |moved| == 1 && |Decimal(b.function_)| == 1;
    var d := moved + Decimal(b.function_);
    assert d[0] == moved[0] == '1' && d[1] == Decimal(b.function_)[0] == Digit(a.function_ - 10);
    DecimalsDiffer(b.function_, a.function_ - 10);
    assert Decimal(b.role) == [Digit(a.role), '1'];
    LeadingZero(b.role);
    DecimalsDiffer(b.role, 11);
  }

  /** Across call ids of different lengths, whatever the codes: two calls share a
      key exactly when the longer call id takes up leading digits of the
      shorter one's codes and leaves its own. So no call id collides with one
      that is not its extension by digits and minus signs. */
  lemma CallIdSeparation(short: CallRef, long: CallRef)
    requires |short.callId| < |long.callId|
    ensures CreateKey(short) == CreateKey(long)
            <==> && short.callId < long.callId
                 && Codes(short) == long.callId[|short.callId|..] + Codes(long)
    ensures CreateKey(short) == CreateKey(long) ==>
              forall c :: c in long.callId[|short.callId|..] ==> c == '-' || '0' <= c <= '9'
  {
    KeyIsCodes(short);
    KeyIsCodes(long);
    var n, m := |short.callId|, |long.callId|;
    if short.callId < long.callId {
      assert long.callId == short.callId + long.callId[n..];
    }
    if CreateKey(short) == CreateKey(long) {
      var k := CreateKey(short);
      assert short.callId == k[..n] && long.callId == k[..m];
      assert Codes(short) == k[n..] == k[..m][n..] + k[m..];
      DecimalChars(short.role);
      DecimalChars(short.function_);
      assert forall c :: c in k[..m][n..] ==> c in k[n..];
    }
  }

  lemma DecimalChars(n: int)
    ensures forall c :: c in Decimal(n) ==> c == '-' || '0' <= c <= '9'
  {
    DecimalOfNat(if n < 0 then -n else n);
  }
}
