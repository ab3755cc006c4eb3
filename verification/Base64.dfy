/** Standard base64 with padding (section 4 of RFC 4648), the codec behind
    `base64.StdEncoding`: the decoder skips line breaks and ignores unused trailing bits. */
module Base64 {
  import opened Bytes

  type sextet = x: int | 0 <= x < 64

  const PAD: byte := 61
  const LINE_FEED: byte := 10
  const CARRIAGE_RETURN: byte := 13

  function Symbol(x: sextet): byte {
    if x < 26 then 65 + x
    else if x < 52 then 97 + (x - 26)
    else if x < 62 then 48 + (x - 52)
    else if x == 62 then 43 else 47
  }

  predicate IsSymbol(c: byte) {
    65 <= c <= 90 || 97 <= c <= 122 || 48 <= c <= 57 || c == 43 || c == 47
  }

  function Sextet(c: byte): sextet
    requires IsSymbol(c)
  {
    if 65 <= c <= 90 then c - 65
    else if 97 <= c <= 122 then c - 97 + 26
    else if 48 <= c <= 57 then c - 48 + 52
    else if c == 43 then 62 else 63
  }

  /** Three bytes as four symbols. */
  function Quantum(a: byte, b: byte, c: byte): (q: Text)
    ensures |q| == 4
  {
    [Symbol(a / 4), Symbol(a % 4 * 16 + b / 16), Symbol(b % 16 * 4 + c / 64), Symbol(c % 64)]
  }

  /** Missing input bytes count as zero; their symbols become padding. */
  function Encode(data: Text): Text {
    if |data| == 0 then []
    else if |data| == 1 then Quantum(data[0], 0, 0)[..2] + [PAD, PAD]
    else if |data| == 2 then Quantum(data[0], data[1], 0)[..3] + [PAD]
    else Quantum(data[0], data[1], data[2]) + Encode(data[3..])
  }

  predicate IsLineBreak(c: byte) {
    c == LINE_FEED || c == CARRIAGE_RETURN
  }

  function WithoutLineBreaks(text: Text): Text {
    if text == [] then []
    else if IsLineBreak(text[0]) then WithoutLineBreaks(text[1..])
    else [text[0]] + WithoutLineBreaks(text[1..])
  }

  /** One quantum; padding is accepted in the last one only. */
  function DecodeQuantum(q: Text, last: bool): Result<Text>
    requires |q| == 4
  {
    if !IsSymbol(q[0]) || !IsSymbol(q[1]) then Err("illegal base64 data")
    else
      var first: byte := Sextet(q[0]) * 4 + Sextet(q[1]) / 16;
      if q[2] == PAD then
        if q[3] == PAD && last then Ok([first]) else Err("illegal base64 data")
      else if !IsSymbol(q[2]) then Err("illegal base64 data")
      else
        var second: byte := Sextet(q[1]) % 16 * 16 + Sextet(q[2]) / 4;
        if q[3] == PAD then
          if last then Ok([first, second]) else Err("illegal base64 data")
        else if !IsSymbol(q[3]) then Err("illegal base64 data")
        else
          var third: byte := Sextet(q[2]) % 4 * 64 + Sextet(q[3]);
          Ok([first, second, third])
  }

  function DecodeQuanta(text: Text): Result<Text> {
    if text == [] then Ok([])
    else if |text| < 4 then Err("illegal base64 data")
    else
      match DecodeQuantum(text[..4], |text| == 4)
      case Ok(head) =>
        (match DecodeQuanta(text[4..])
         case Ok(rest) => Ok(head + rest)
         case Err(reason) => Err(reason)
         case Panic => Panic)
      case Err(reason) => Err(reason)
      case Panic => Panic
  }

  function Decode(text: Text): Result<Text> {
    DecodeQuanta(WithoutLineBreaks(text))
  }

  // ---- against the standard ----

  /** Table 1 of RFC 4648. */
  const UPPER: string := "ABCDEFGHIJKLMNOPQRSTUVWXYZ"
  const LOWER: string := "abcdefghijklmnopqrstuvwxyz"
  const DIGITS: string := "0123456789"
  const ALPHABET: string := UPPER + LOWER + DIGITS + "+/"

  lemma Upper(i: nat)
    requires i < 26
    ensures |UPPER| == 26 && UPPER[i] as int == 65 + i
  {
  }

  lemma Lower(i: nat)
    requires i < 26
    ensures |LOWER| == 26 && LOWER[i] as int == 97 + i
  {
  }

  lemma Digits(i: nat)
    requires i < 10
    ensures |DIGITS| == 10 && DIGITS[i] as int == 48 + i
  {
  }

  /** Symbols are the entries of the table. */
  lemma SymbolOfAlphabet(x: sextet)
    ensures |ALPHABET| == 64 && ALPHABET[x] as int == Symbol(x)
  {
    Upper(if x < 26 then x else 0);
    Lower(if 26 <= x < 52 then x - 26 else 0);
    Digits(if 52 <= x < 62 then x - 52 else 0);
  }

  lemma SymbolsOfAlphabet(c: byte)
    ensures IsSymbol(c) <==> exists x: sextet :: |ALPHABET| == 64 && ALPHABET[x] as int == c
    ensures IsSymbol(c) ==> |ALPHABET| == 64 && ALPHABET[Sextet(c)] as int == c
  {
    forall x: sextet ensures |ALPHABET| == 64 && ALPHABET[x] as int == Symbol(x) && IsSymbol(Symbol(x)) {
      SymbolOfAlphabet(x);
    }
    if IsSymbol(c) {
      assert Symbol(Sextet(c)) == c;
    }
  }

  /** A quantum writes in base 64 the number that its three bytes write in base 256. */
  ghost predicate SameNumber(q: Text, a: byte, b: byte, c: byte) {
    && |q| == 4 && (forall i :: 0 <= i < 4 ==> IsSymbol(q[i]))
    && Sextet(q[0]) * 262144 + Sextet(q[1]) * 4096 + Sextet(q[2]) * 64 + Sextet(q[3]) == a * 65536 + b * 256 + c
  }

  lemma QuantumNumber(a: byte, b: byte, c: byte)
    ensures SameNumber(Quantum(a, b, c), a, b, c)
  {
    QuantumSextets(a, b, c);
  }

  /** What the quantum written for up to three bytes says: bytes missing at the end count as
      zero, and padding stands for the symbols without a bit of the data. */
  ghost predicate Writes(q: Text, data: Text)
    requires |q| == 4 && 1 <= |data| <= 3
  {
    if |data| == 3 then SameNumber(q, data[0], data[1], data[2])
    else if |data| == 2 then q[3] == PAD && SameNumber(q[..3] + [Symbol(0)], data[0], data[1], 0)
    else q[2] == q[3] == PAD && SameNumber(q[..2] + [Symbol(0), Symbol(0)], data[0], 0, 0)
  }

  lemma QuantumWrites(data: Text)
    requires 1 <= |data| <= 3
    ensures |Encode(data)| == 4 && Writes(Encode(data), data)
  {
    if |data| == 3 {
      QuantumNumber(data[0], data[1], data[2]);
      assert data[3..] == [];
      assert Encode(data) == Quantum(data[0], data[1], data[2]) + [];
    } else if |data| == 2 {
      QuantumNumber(data[0], data[1], 0);
      var q := Quantum(data[0], data[1], 0);
      assert q[..3] + [Symbol(0)] == q && Encode(data)[..3] == q[..3];
    } else {
      QuantumNumber(data[0], 0, 0);
      var q := Quantum(data[0], 0, 0);
      assert q[..2] + [Symbol(0), Symbol(0)] == q && Encode(data)[..2] == q[..2];
    }
  }

  lemma EncodeFirst(data: Text)
    requires |data| >= 3
    ensures Encode(data[..3]) == Quantum(data[0], data[1], data[2])
    ensures Encode(data) == Encode(data[..3]) + Encode(data[3..])
  {
    assert data[..3][3..] == [];
    assert Encode(data[..3]) == Quantum(data[0], data[1], data[2]) + [];
  }

  /** The `k`-th part of three bytes, or of those that are left. */
  function Part(data: Text, k: nat): (p: Text)
    requires 3 * k < |data|
    ensures 1 <= |p| <= 3
  {
    if 3 * k + 3 <= |data| then data[3 * k..3 * k + 3] else data[3 * k..]
  }

  lemma LaterQuantum(q: Text, rest: Text, k: nat)
    requires |q| == 4 && k > 0 && 4 * k <= |rest|
    ensures (q + rest)[4 * k..4 * k + 4] == rest[4 * (k - 1)..4 * (k - 1) + 4]
  {
  }

  lemma LaterPart(data: Text, k: nat)
    requires k > 0 && 3 * k < |data|
    ensures Part(data, k) == Part(data[3..], k - 1)
  {
  }

  lemma {:induction false} EncodeParts(data: Text, k: nat)
    requires 3 * k < |data|
    ensures 4 * k + 4 <= |Encode(data)| && Encode(data)[4 * k..4 * k + 4] == Encode(Part(data, k))
    decreases k
  {
    if |data| < 3 {
      assert Part(data, 0) == data && Encode(data)[..4] == Encode(data);
    } else {
      EncodeFirst(data);
      if k == 0 {
        assert Part(data, 0) == data[..3] && Encode(data)[..4] == Encode(data[..3]);
      } else {
        EncodeParts(data[3..], k - 1);
        LaterPart(data, k);
        LaterQuantum(Encode(data[..3]), Encode(data[3..]), k);
      }
    }
  }

  /** The encoding goes quantum by quantum. */
  lemma EncodeAt(data: Text, k: nat)
    requires 3 * k < |data|
    ensures |Encode(data)| == (|data| + 2) / 3 * 4
    ensures Writes(Encode(data)[4 * k..4 * k + 4], Part(data, k))
  {
    EncodeLength(data);
    EncodeParts(data, k);
    QuantumWrites(Part(data, k));
  }

  lemma {:induction false} EncodeLength(data: Text)
    ensures |Encode(data)| == (|data| + 2) / 3 * 4
  {
    if |data| >= 3 {
      EncodeLength(data[3..]);
    }
  }

  /** A symbol, or padding as the last one or two. */
  predicate Fits(text: Text, i: nat)
    requires i < |text|
  {
    || IsSymbol(text[i])
    || (i == |text| - 1 && text[i] == PAD)
    || (i == |text| - 2 && text[i] == text[i + 1] == PAD)
  }

  /** The decoder accepts exactly the texts that are, without their line breaks, whole quanta
      of symbols, padded at the end only. */
  lemma {:induction false} DecodeQuantaIff(text: Text)
    ensures DecodeQuanta(text).Ok? <==> |text| % 4 == 0 && forall i :: 0 <= i < |text| ==> Fits(text, i)
  {
    if |text| >= 4 {
      var q, rest := text[..4], text[4..];
      DecodeQuantaIff(rest);
      DecodeQuantumIff(q, rest == []);
      if DecodeQuantum(q, rest == []).Ok? && DecodeQuanta(rest).Ok? {
        FitsApart(text);
      } else if |text| % 4 == 0 && forall i :: 0 <= i < |text| ==> Fits(text, i) {
        FitsApart(text);
      }
    } else if |text| > 0 {
      assert |text| % 4 != 0;
    }
  }

  lemma FitsApart(text: Text)
    requires |text| >= 4 && |text| % 4 == 0
    ensures (forall i :: 0 <= i < |text| ==> Fits(text, i)) <==>
            && (forall i :: 0 <= i < 4 ==> if |text| == 4 then Fits(text[..4], i) else IsSymbol(text[i]))
            && (forall i :: 0 <= i < |text[4..]| ==> Fits(text[4..], i))
  {
    var rest := text[4..];
    forall i | 0 <= i < |rest| ensures Fits(rest, i) <==> Fits(text, i + 4) {
    }
    forall i | 0 <= i < 4 && |text| > 4 ensures Fits(text, i) <==> IsSymbol(text[i]) {
    }
    assert |text| == 4 ==> text[..4] == text;
    if forall i :: 0 <= i < |rest| ==> Fits(rest, i) {
      forall i | 4 <= i < |text| ensures Fits(text, i) {
        assert Fits(rest, i - 4);
      }
    }
  }

  lemma DecodeQuantumIff(q: Text, last: bool)
    requires |q| == 4
    ensures DecodeQuantum(q, last).Ok? <==>
            forall i :: 0 <= i < 4 ==> if last then Fits(q, i) else IsSymbol(q[i])
  {
    if last {
      assert (forall i :: 0 <= i < 4 ==> Fits(q, i)) <==> Fits(q, 0) && Fits(q, 1) && Fits(q, 2) && Fits(q, 3);
    } else {
      assert (forall i :: 0 <= i < 4 ==> IsSymbol(q[i])) <==>
             IsSymbol(q[0]) && IsSymbol(q[1]) && IsSymbol(q[2]) && IsSymbol(q[3]);
    }
  }

  /** Line breaks are dropped wherever they are, and nothing else is. */
  lemma {:induction false} LineBreaksDropped(a: Text, c: byte, b: Text)
    ensures WithoutLineBreaks(a + [c] + b) ==
            WithoutLineBreaks(a) + (if c == 10 || c == 13 then [] else [c]) + WithoutLineBreaks(b)
  {
    var text := a + [c] + b;
    if a == [] {
      assert text[1..] == b;
    } else {
      assert text[1..] == a[1..] + [c] + b;
      LineBreaksDropped(a[1..], c, b);
    }
  }

  /** `Decode` succeeds exactly on those; the bits of a last symbol that no byte is made of
      do not matter. */
  lemma DecodeIff(text: Text)
    ensures var t := WithoutLineBreaks(text);
            Decode(text).Ok? <==> |t| % 4 == 0 && forall i :: 0 <= i < |t| ==> Fits(t, i)
  {
    DecodeQuantaIff(WithoutLineBreaks(text));
  }

  // ---- decoding undoes encoding ----

  lemma {:induction false} EncodeHasNoLineBreaks(data: Text, i: nat)
    requires i < |Encode(data)|
    ensures !IsLineBreak(Encode(data)[i])
  {
    if |data| > 2 && i >= 4 {
      EncodeHasNoLineBreaks(data[3..], i - 4);
    }
  }

  lemma {:induction false} NoLineBreaksToDrop(text: Text)
    requires forall i :: 0 <= i < |text| ==> !IsLineBreak(text[i])
    ensures WithoutLineBreaks(text) == text
  {
    if text != [] {
      NoLineBreaksToDrop(text[1..]);
    }
  }

  lemma QuantumSextets(a: byte, b: byte, c: byte)
    ensures var q := Quantum(a, b, c);
            && IsSymbol(q[0]) && Sextet(q[0]) == a / 4
            && IsSymbol(q[1]) && Sextet(q[1]) == a % 4 * 16 + b / 16
            && IsSymbol(q[2]) && q[2] != PAD && Sextet(q[2]) == b % 16 * 4 + c / 64
            && IsSymbol(q[3]) && q[3] != PAD && Sextet(q[3]) == c % 64
  {
  }

  lemma Regroup(a: byte, b: byte, c: byte)
    ensures a / 4 * 4 + (a % 4 * 16 + b / 16) / 16 == a
    ensures (a % 4 * 16 + b / 16) % 16 * 16 + (b % 16 * 4 + c / 64) / 4 == b
    ensures (b % 16 * 4 + c / 64) % 4 * 64 + c % 64 == c
  {
  }

  /** The symbols of a quantum give back its bytes. */
  lemma QuantumBytes(a: byte, b: byte, c: byte)
    ensures var q := Quantum(a, b, c);
            && IsSymbol(q[0]) && IsSymbol(q[1])
            && IsSymbol(q[2]) && q[2] != PAD && IsSymbol(q[3]) && q[3] != PAD
            && Sextet(q[0]) * 4 + Sextet(q[1]) / 16 == a
            && Sextet(q[1]) % 16 * 16 + Sextet(q[2]) / 4 == b
            && Sextet(q[2]) % 4 * 64 + Sextet(q[3]) == c
  {
    QuantumSextets(a, b, c);
    Regroup(a, b, c);
  }

  lemma DecodeThreeBytes(a: byte, b: byte, c: byte, last: bool)
    ensures DecodeQuantum(Quantum(a, b, c), last) == Ok([a, b, c])
  {
    QuantumBytes(a, b, c);
  }

  lemma DecodeTwoBytes(a: byte, b: byte)
    ensures DecodeQuantum(Quantum(a, b, 0)[..3] + [PAD], true) == Ok([a, b])
  {
    QuantumBytes(a, b, 0);
  }

  lemma DecodeOneByte(a: byte)
    ensures DecodeQuantum(Quantum(a, 0, 0)[..2] + [PAD, PAD], true) == Ok([a])
  {
  }

  /** Decoding goes quantum by quantum. */
  lemma DecodePrefix(q: Text, text: Text, head: Text)
    requires |q| == 4 && DecodeQuantum(q, text == []) == Ok(head)
    requires DecodeQuanta(text).Ok?
    ensures DecodeQuanta(q + text) == Ok(head + DecodeQuanta(text).value)
  {
  }

  lemma DecodeLast(q: Text, data: Text)
    requires |q| == 4 && DecodeQuantum(q, true) == Ok(data)
    ensures DecodeQuanta(q) == Ok(data)
  {
    DecodePrefix(q, [], data);
    assert q + [] == q && data + [] == data;
  }

  lemma DecodeEncodeThree(a: byte, b: byte, c: byte, rest: Text)
    requires DecodeQuanta(Encode(rest)) == Ok(rest)
    ensures DecodeQuanta(Quantum(a, b, c) + Encode(rest)) == Ok([a, b, c] + rest)
  {
    DecodeThreeBytes(a, b, c, Encode(rest) == []);
    DecodePrefix(Quantum(a, b, c), Encode(rest), [a, b, c]);
  }

  lemma DecodeEncodeTwo(a: byte, b: byte)
    ensures DecodeQuanta(Encode([a, b])) == Ok([a, b])
  {
    DecodeTwoBytes(a, b);
    DecodeLast(Encode([a, b]), [a, b]);
  }

  lemma DecodeEncodeOne(a: byte)
    ensures DecodeQuanta(Encode([a])) == Ok([a])
  {
    DecodeOneByte(a);
    DecodeLast(Encode([a]), [a]);
  }

  lemma {:induction false} DecodeQuantaEncode(data: Text)
    ensures DecodeQuanta(Encode(data)) == Ok(data)
  {
    if |data| >= 3 {
      var rest := data[3..];
      DecodeQuantaEncode(rest);
      DecodeEncodeThree(data[0], data[1], data[2], rest);
      assert data == [data[0], data[1], data[2]] + rest;
    } else if |data| == 2 {
      DecodeEncodeTwo(data[0], data[1]);
      assert data == [data[0], data[1]];
    } else if |data| == 1 {
      DecodeEncodeOne(data[0]);
      assert data == [data[0]];
    }
  }

  /** Every byte string survives the codec. */
  lemma DecodeEncode(data: Text)
    ensures Decode(Encode(data)) == Ok(data)
  {
    forall i | 0 <= i < |Encode(data)| ensures !IsLineBreak(Encode(data)[i]) {
      EncodeHasNoLineBreaks(data, i);
    }
    NoLineBreaksToDrop(Encode(data));
    DecodeQuantaEncode(data);
  }
}
