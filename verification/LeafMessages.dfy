/** The message hashed for a leaf runs zone and level together, so it does not always tell the leaf: the exact condition
    on the zone names under which it does.
 */
module LeafMessages {
  import opened Names
  import opened LeafChain
  import opened MerkleValue

  /** Zone "a" at level 2 and zone "a1" at level 0 are hashed alike. */
  lemma MessagesCanAgree(end: LeafZone)
    ensures Message(LeafContent(LeafZone("a", 2, Existing), end))
         == Message(LeafContent(LeafZone("a1", 0, Existing), end))
  {
    assert Binary(2) == Binary(1) + "0" && Binary(1) == "1" && Binary(0) == "0";
    assert "a" + Binary(2) == "a1" + Binary(0);
  }

  // ---- binary numerals ----

  predicate Digit(ch: char) {
    ch == '0' || ch == '1'
  }

  /** A numeral of a positive number. */
  predicate Numeral(w: string) {
    w != "" && w[0] == '1' && forall i :: 0 <= i < |w| ==> Digit(w[i])
  }

  lemma {:induction false} BinaryDigits(n: nat)
    ensures Binary(n) != "" && forall i :: 0 <= i < |Binary(n)| ==> Digit(Binary(n)[i])
  {
    if n >= 2 { BinaryDigits(n / 2); }
  }

  lemma {:induction false} BinaryLeads(n: nat)
    ensures Binary(n) != "" && (Binary(n)[0] == '0' <==> n == 0)
    ensures |Binary(n)| == 1 <==> n < 2
  {
    BinaryDigits(n);
    if n >= 2 {
      BinaryDigits(n / 2);
      BinaryLeads(n / 2);
    }
  }

  lemma {:induction false} BinaryIsUnique(m: nat, n: nat)
    requires Binary(m) == Binary(n)
    ensures m == n
  {
    BinaryLeads(m);
    BinaryLeads(n);
    if m >= 2 {
      var k := |Binary(m)| - 1;
      assert Binary(m)[..k] == Binary(m / 2) && Binary(n)[..k] == Binary(n / 2);
      assert Binary(m)[k] == Binary(n)[k];
      BinaryIsUnique(m / 2, n / 2);
    }
  }

  /** Every numeral is the numeral of a number. */
  lemma {:induction false} NumeralNumber(w: string) returns (n: nat)
    requires Numeral(w)
    ensures n > 0 && Binary(n) == w
  {
    var k := |w| - 1;
    if k == 0 {
      n := 1;
      assert w == "1";
    } else {
      var half := NumeralNumber(w[..k]);
      n := 2 * half + if w[k] == '0' then 0 else 1;
      assert n / 2 == half;
      assert w == w[..k] + [w[k]];
    }
  }

  /** A level of so many bits is a level with at most so many digits. */
  lemma {:induction false} BinaryLength(n: nat, bits: nat)
    requires bits > 0
    ensures n < Pow2(bits) <==> |Binary(n)| <= bits
  {
    BinaryLeads(n);
    if n >= 2 {
      if bits == 1 {
        assert Pow2(1) == 2;
      } else {
        BinaryLeads(n / 2);
        BinaryLength(n / 2, bits - 1);
      }
    } else {
      TwoFit(bits);
    }
  }

  lemma {:induction false} TwoFit(bits: nat)
    requires bits > 0
    ensures Pow2(bits) >= 2
  {
    if bits > 1 { TwoFit(bits - 1); }
  }

  // ---- one end of a leaf ----

  /** No character that could be taken for a type byte. */
  predicate Printable(name: string) {
    forall i :: 0 <= i < |name| ==> name[i] > '\U{2}'
  }

  /** Zone and level of an end. */
  function Body(z: LeafZone): string {
    z.zone + Binary(z.alv)
  }

  /** If two ends agree in zone and level run together but not in the zone, the longer zone is the shorter one followed
      by a numeral with fewer digits than the level. */
  lemma LongerZone(z: LeafZone, y: LeafZone) returns (w: string)
    requires Body(z) == Body(y) && |z.zone| < |y.zone|
    ensures Numeral(w) && y.zone == z.zone + w && |w| < |Binary(z.alv)|
  {
    var m, n := |z.zone|, |y.zone|;
    w := y.zone[m..];
    BinaryDigits(z.alv);
    BinaryDigits(y.alv);
    BinaryLeads(z.alv);
    var b := Body(z);
    assert b[..m] == z.zone && b[m..] == Binary(z.alv) && b[..n] == y.zone && b[n..] == Binary(y.alv);
    assert y.zone == z.zone + w && b[m..] == w + Binary(y.alv);
    assert w <= Binary(z.alv);
  }

  /** The type byte is the first unprintable character. */
  lemma BodyEnds(z: LeafZone, y: LeafZone, u: string, v: string)
    requires Printable(z.zone) && Printable(y.zone) && Part(z) + u == Part(y) + v
    ensures |Body(y)| <= |Body(z)|
  {
    BinaryDigits(y.alv);
    var k := |Body(z)|;
    var m := Part(z) + u;
    assert m == Body(z) + TypeBytes(z.zoneType) + u == Body(y) + TypeBytes(y.zoneType) + v;
    assert m[k] == TypeBytes(z.zoneType)[0];
    assert forall i :: 0 <= i < |Body(y)| ==> m[i] == Body(y)[i];
  }

  lemma PartEnds(z: LeafZone, y: LeafZone, u: string, v: string)
    requires Printable(z.zone) && Printable(y.zone) && Part(z) + u == Part(y) + v
    ensures Body(z) == Body(y) && z.zoneType == y.zoneType && u == v
  {
    BodyEnds(z, y, u, v);
    BodyEnds(y, z, v, u);
    var k := |Body(z)|;
    var m := Part(z) + u;
    assert m == Body(z) + TypeBytes(z.zoneType) + u == Body(y) + TypeBytes(y.zoneType) + v;
    assert m[..k] == Body(z) == Body(y);
    assert m[k] == TypeBytes(z.zoneType)[0] == TypeBytes(y.zoneType)[0];
    assert m[k + 1..] == u == v;
  }

  // ---- the condition ----

  /** No name is another one followed by the numeral of a positive number that has fewer than so many bits. */
  ghost predicate Separate(names: iset<string>, bits: nat) {
    forall a, w :: a in names && Numeral(w) && |w| < bits ==> a + w !in names
  }

  /** An end with one of the names and a level of so many bits; the levels of the code have eight. */
  ghost predicate Named(z: LeafZone, names: iset<string>, bits: nat) {
    z.zone in names && z.alv < Pow2(bits)
  }

  ghost predicate EndsNamed(c: LeafContent, names: iset<string>, bits: nat) {
    Named(c.start, names, bits) && Named(c.end, names, bits)
  }

  ghost predicate AllPrintable(names: iset<string>) {
    forall n :: n in names ==> Printable(n)
  }

  lemma BodyIsUnique(names: iset<string>, bits: nat, z: LeafZone, y: LeafZone)
    requires Separate(names, bits) && bits > 0 && Named(z, names, bits) && Named(y, names, bits) && Body(z) == Body(y)
    ensures z.zone == y.zone && z.alv == y.alv
  {
    BinaryLength(z.alv, bits);
    BinaryLength(y.alv, bits);
    hide Numeral, Binary;
    if |z.zone| < |y.zone| {
      var w := LongerZone(z, y);
      assert false;
    } else if |y.zone| < |z.zone| {
      var w := LongerZone(y, z);
      assert false;
    }
    var n := |z.zone|;
    assert Body(z)[..n] == z.zone && Body(y)[..n] == y.zone;
    assert Body(z)[n..] == Binary(z.alv) && Body(y)[n..] == Binary(y.alv);
    BinaryIsUnique(z.alv, y.alv);
  }

  lemma PartIsUnique(names: iset<string>, bits: nat, z: LeafZone, y: LeafZone, u: string, v: string)
    requires AllPrintable(names) && Separate(names, bits) && bits > 0
    requires Named(z, names, bits) && Named(y, names, bits) && Part(z) + u == Part(y) + v
    ensures z == y && u == v
  {
    PartEnds(z, y, u, v);
    hide Separate, Body, Part, Printable;
    BodyIsUnique(names, bits, z, y);
  }

  lemma MessageIsUnique(names: iset<string>, bits: nat, c: LeafContent, d: LeafContent)
    requires AllPrintable(names) && Separate(names, bits) && bits > 0
    requires EndsNamed(c, names, bits) && EndsNamed(d, names, bits) && Message(c) == Message(d)
    ensures c == d
  {
    hide Part, Named, Separate, AllPrintable;
    PartIsUnique(names, bits, c.start, d.start, Part(c.end), Part(d.end));
    assert Part(c.end) + "" == Part(d.end) + "";
    PartIsUnique(names, bits, c.end, d.end, "", "");
  }

  /** A name and its continuation by a numeral, at suitable levels, give two leaves with one message. */
  lemma ContinuedNameClashes(names: iset<string>, bits: nat, a: string, w: string)
    returns (c: LeafContent, d: LeafContent)
    requires a in names && Numeral(w) && |w| < bits && a + w in names
    ensures EndsNamed(c, names, bits) && EndsNamed(d, names, bits) && Message(c) == Message(d) && c != d
  {
    var n := NumeralNumber(w + "0");
    BinaryLength(n, bits);
    BinaryLength(0, bits);
    assert Binary(0) == "0";
    var z, y := LeafZone(a, n, Existing), LeafZone(a + w, 0, Existing);
    c, d := LeafContent(z, y), LeafContent(y, y);
    assert a + (w + "0") == (a + w) + "0";
    assert Part(z) == Part(y);
  }

  ghost predicate MessagesTellLeaves(names: iset<string>, bits: nat) {
    forall c, d :: EndsNamed(c, names, bits) && EndsNamed(d, names, bits) && Message(c) == Message(d) ==> c == d
  }

  /** For printable names and levels of any number of bits: the message tells the leaf if and only if no name is
      another one followed by a numeral of fewer bits. */
  lemma MessagesAreExact(names: iset<string>, bits: nat)
    requires AllPrintable(names) && bits > 0
    ensures MessagesTellLeaves(names, bits) <==> Separate(names, bits)
  {
    hide Message, Numeral, EndsNamed, AllPrintable;
    if Separate(names, bits) {
      forall c, d | EndsNamed(c, names, bits) && EndsNamed(d, names, bits) && Message(c) == Message(d) ensures c == d {
        MessageIsUnique(names, bits, c, d);
      }
    } else {
      var a, w :| a in names && Numeral(w) && |w| < bits && a + w in names;
      var c, d := ContinuedNameClashes(names, bits, a, w);
    }
  }

  /** An end as the code can hold it: levels are below 256. */
  ghost predicate ByteEnds(c: LeafContent, names: iset<string>) {
    c.start.zone in names && c.start.alv < 256 && c.end.zone in names && c.end.alv < 256
  }

  /** So for the levels of the code it takes a numeral of at most seven digits to confuse two leaves. */
  lemma ByteMessagesAreExact(names: iset<string>)
    requires AllPrintable(names)
    ensures (forall c, d :: ByteEnds(c, names) && ByteEnds(d, names) && Message(c) == Message(d) ==> c == d)
      <==> forall a, w :: a in names && Numeral(w) && |w| <= 7 ==> a + w !in names
  {
    assert Pow2(8) == 256 by { assert Pow2(4) == 16; }
    forall c ensures ByteEnds(c, names) <==> EndsNamed(c, names, 8) {
    }
    hide Message, Numeral, EndsNamed, ByteEnds, AllPrintable;
    MessagesAreExact(names, 8);
  }

  /** A name that ends in no binary digit continues no other. */
  predicate Plain(name: string) {
    Printable(name) && (name != "" ==> !Digit(name[|name| - 1]))
  }

  lemma PlainIsSeparate(names: iset<string>, bits: nat)
    requires forall n :: n in names ==> Plain(n)
    ensures AllPrintable(names) && Separate(names, bits)
  {
    forall a, w | a in names && Numeral(w) && |w| < bits ensures a + w !in names {
      assert (a + w)[|a + w| - 1] == w[|w| - 1];
    }
  }
}
