/**
 * The placeholder receipt (ballotbox/src/libballotbrain/crypto.c): a 64-digit hex string that is a
 * function of the ballot's nonce and version only.
 */
module Receipts {
  import opened Word32

  const HASH_DIGITS := 64

  /** fold: a multiply-by-33 string hash in 32 bits; characters stand for bytes. */
  function Fold(s: string): (h: U32) {
    FoldFrom(5381, s)
  }

  function FoldFrom(h: U32, s: string): U32
    decreases |s|
  {
    if s == [] then h else FoldFrom(Wrap(h * 33 + s[0] as int), s[1..])
  }

  function HexDigit(n: int): char
    requires 0 <= n < 16
  {
    "0123456789abcdef"[n]
  }

  /** hash_from_seed's generator: `n` digits, each bits 16..19 of the next congruential state. */
  function Digits(state: U32, n: nat): (out: string)
    ensures |out| == n
    decreases n
  {
    if n == 0 then []
    else
      var next := Wrap(state * 1103515245 + 12345);
      [HexDigit(next / 0x1_0000 % 16)] + Digits(next, n - 1)
  }

  function HashFromSeed(seed: U32): (out: string)
    ensures |out| == HASH_DIGITS
  {
    Digits(Wrap(seed * 2654435761 + 1), HASH_DIGITS)
  }

  /** bb_issue_receipt's hash. */
  function HashOf(nonce: string, version: int): (out: string)
    ensures |out| == HASH_DIGITS
  {
    HashFromSeed(Wrap(Xor(Fold(nonce), Wrap(version * 2246822519))))
  }

  // ---- what freshness cannot be derived from ----

  /** States that agree modulo 2^20 print the same digits for ever. */
  lemma {:induction false} LowBitsDecide(a: U32, b: U32, n: nat)
    requires a % 0x10_0000 == b % 0x10_0000
    ensures Digits(a, n) == Digits(b, n)
    decreases n
  {
    if n > 0 {
      var a', b' := Wrap(a * 1103515245 + 12345), Wrap(b * 1103515245 + 12345);
      LowBitsStep(a);
      LowBitsStep(b);
      LowBitsDecide(a', b', n - 1);
    }
  }

  lemma LowBitsStep(a: U32)
    ensures var n := Wrap(a * 1103515245 + 12345);
            && n % 0x10_0000 == (a % 0x10_0000 * 1103515245 + 12345) % 0x10_0000
            && n / 0x1_0000 % 16 == n % 0x10_0000 / 0x1_0000
  {
    var q, r := a / 0x10_0000, a % 0x10_0000;
    assert a * 1103515245 + 12345 == (r * 1103515245 + 12345) + 0x10_0000 * (q * 1103515245);
    WrapKeepsLowBits(a * 1103515245 + 12345);
    AddMultiple(r * 1103515245 + 12345, q * 1103515245);
    NibbleInLowBits(Wrap(a * 1103515245 + 12345));
  }

  lemma NibbleInLowBits(n: nat)
    ensures n / 0x1_0000 % 16 == n % 0x10_0000 / 0x1_0000
  {
    var q, r := n / 0x10_0000, n % 0x10_0000;
    assert n / 0x1_0000 == 16 * q + r / 0x1_0000;
  }

  lemma WrapKeepsLowBits(n: nat)
    ensures Wrap(n) % 0x10_0000 == n % 0x10_0000
  {
    assert n == Wrap(n) + 0x10_0000 * (4096 * (n / LIMIT));
    AddMultiple(Wrap(n), 4096 * (n / LIMIT));
  }

  lemma AddMultiple(n: int, k: int)
    ensures (n + 0x10_0000 * k) % 0x10_0000 == n % 0x10_0000
  {
  }

  /** A receipt depends on its 32-bit seed only through the seed modulo 2^20. */
  lemma SeedLowBitsDecide(a: U32, b: U32)
    requires a % 0x10_0000 == b % 0x10_0000
    ensures HashFromSeed(a) == HashFromSeed(b)
  {
    MulLowBits(a);
    MulLowBits(b);
    LowBitsDecide(Wrap(a * 2654435761 + 1), Wrap(b * 2654435761 + 1), HASH_DIGITS);
  }

  lemma MulLowBits(a: U32)
    ensures Wrap(a * 2654435761 + 1) % 0x10_0000 == (a % 0x10_0000 * 2654435761 + 1) % 0x10_0000
  {
    var q, r := a / 0x10_0000, a % 0x10_0000;
    assert a * 2654435761 + 1 == (r * 2654435761 + 1) + 0x10_0000 * (q * 2654435761);
    WrapKeepsLowBits(a * 2654435761 + 1);
    AddMultiple(r * 2654435761 + 1, q * 2654435761);
  }

  lemma FoldTwo(a: char, b: char)
    ensures Fold([a, b]) == Wrap(Wrap(5381 * 33 + a as int) * 33 + b as int)
  {
    hide Wrap;
    assert [a, b][1..] == [b] && [b][1..] == [];
    assert FoldFrom(5381, [a, b]) == FoldFrom(Wrap(5381 * 33 + a as int), [b]);
  }

  lemma FoldsCollide()
    ensures Fold("Az") == Fold("BY") == 5862176
  {
    hide Fold;
    FoldTwo('A', 'z');
    FoldTwo('B', 'Y');
    assert ['A', 'z'] == "Az" && ['B', 'Y'] == "BY";
  }

  /** Two different nonces with one receipt at every version. */
  lemma NoncesCollide(version: int)
    ensures "Az" != "BY" && HashOf("Az", version) == HashOf("BY", version)
  {
    hide Fold, HashFromSeed, Xor;
    FoldsCollide();
    assert "Az"[0] != "BY"[0];
  }

  // ---- two receipts that differ ----

  lemma FirstSeed()
    ensures Xor(5862176, 2246822519) == 2243082583
  {
    assert Xor(0, 1) == 1;
    assert Xor(0, 2) == 2;
    assert Xor(0, 4) == 4;
    assert Xor(0, 8) == 8;
    assert Xor(0, 16) == 16;
    assert Xor(0, 33) == 33;
    assert Xor(0, 66) == 66;
    assert Xor(0, 133) == 133;
    assert Xor(0, 267) == 267;
    assert Xor(1, 535) == 534;
    assert Xor(2, 1071) == 1069;
    assert Xor(5, 2142) == 2139;
    assert Xor(11, 4285) == 4278;
    assert Xor(22, 8570) == 8556;
    assert Xor(44, 17141) == 17113;
    assert Xor(89, 34283) == 34226;
    assert Xor(178, 68567) == 68453;
    assert Xor(357, 137135) == 136906;
    assert Xor(715, 274270) == 273813;
    assert Xor(1431, 548540) == 547627;
    assert Xor(2862, 1097081) == 1095255;
    assert Xor(5724, 2194162) == 2190510;
    assert Xor(11449, 4388325) == 4381020;
    assert Xor(22899, 8776650) == 8762041;
    assert Xor(45798, 17553300) == 17524082;
    assert Xor(91596, 35106601) == 35048165;
    assert Xor(183193, 70213203) == 70096330;
    assert Xor(366386, 140426407) == 140192661;
    assert Xor(732772, 280852814) == 280385322;
    assert Xor(1465544, 561705629) == 560770645;
    assert Xor(2931088, 1123411259) == 1121541291;
    assert Xor(5862176, 2246822519) == 2243082583;
  }

  lemma SecondSeed()
    ensures Xor(177670, 198677742) == 198517480
  {
    assert Xor(0, 1) == 1;
    assert Xor(0, 2) == 2;
    assert Xor(0, 5) == 5;
    assert Xor(0, 11) == 11;
    assert Xor(0, 23) == 23;
    assert Xor(0, 47) == 47;
    assert Xor(0, 94) == 94;
    assert Xor(0, 189) == 189;
    assert Xor(0, 378) == 378;
    assert Xor(0, 757) == 757;
    assert Xor(1, 1515) == 1514;
    assert Xor(2, 3031) == 3029;
    assert Xor(5, 6063) == 6058;
    assert Xor(10, 12126) == 12116;
    assert Xor(21, 24252) == 24233;
    assert Xor(43, 48505) == 48466;
    assert Xor(86, 97010) == 96932;
    assert Xor(173, 194021) == 193864;
    assert Xor(347, 388042) == 387729;
    assert Xor(694, 776084) == 775458;
    assert Xor(1388, 1552169) == 1550917;
    assert Xor(2776, 3104339) == 3101835;
    assert Xor(5552, 6208679) == 6203671;
    assert Xor(11104, 12417358) == 12407342;
    assert Xor(22208, 24834717) == 24814685;
    assert Xor(44417, 49669435) == 49629370;
    assert Xor(88835, 99338871) == 99258740;
    assert Xor(177670, 198677742) == 198517480;
  }

  lemma FirstDigit(state: U32, n: nat)
    requires n > 0
    ensures Digits(state, n)[0] == HexDigit(Wrap(state * 1103515245 + 12345) / 0x1_0000 % 16)
  {
    hide Wrap, HexDigit;
  }

  lemma FirstStates()
    ensures Wrap(2243082583 * 2654435761 + 1) == 1843217448 && Wrap(1843217448 * 1103515245 + 12345) == 283796801
    ensures 283796801 / 0x1_0000 % 16 == 10
  {
  }

  lemma SecondStates()
    ensures Wrap(198517480 * 2654435761 + 1) == 2612316777 && Wrap(2612316777 * 1103515245 + 12345) == 2547801326
    ensures 2547801326 / 0x1_0000 % 16 == 12
  {
  }

  lemma SampleFold()
    ensures Fold("a") == 177670
  {
    assert "a"[1..] == "";
  }

  /** The receipt of nonce "Az" at version 1 is not that of nonce "a" at version 2. */
  lemma SampleReceiptsDiffer()
    ensures HashOf("Az", 1) != HashOf("a", 2)
  {
    hide Fold, Xor, Digits, Wrap;
    FoldsCollide();
    SampleFold();
    FirstSeed();
    SecondSeed();
    FirstStates();
    SecondStates();
    FirstDigit(1843217448, HASH_DIGITS);
    FirstDigit(2612316777, HASH_DIGITS);
    VersionsMixed();
  }

  lemma VersionsMixed()
    ensures Wrap(1 * 2246822519) == 2246822519 && Wrap(2 * 2246822519) == 198677742
    ensures Wrap(2243082583) == 2243082583 && Wrap(198517480) == 198517480
  {
  }
}
