/** The height a coinbase script commits to (BIP 34, "Specification"): a minimal script-number
    push at the start of the script. */
module HeightCommitment {
  import opened Wrappers
  import opened Bytes
  import opened Transactions
  import opened Ancestry

  const I32_MAX: nat := 0x7fff_ffff

  /** Little-endian bytes without leading zeros. */
  function Minimal(n: nat): (s: seq<byte>)
    ensures n > 0 ==> s != [] && s[|s| - 1] != 0
  {
    if n == 0 then [] else [n % 256] + Minimal(n / 256)
  }

  /** A script number: a zero byte keeps the top bit free for the sign. */
  function ScriptNumber(n: nat): seq<byte> {
    var s := Minimal(n);
    if s != [] && s[|s| - 1] >= 0x80 then s + [0] else s
  }

  /** How the script builder pushes a block height. */
  function PushInt(n: nat): seq<byte>
    requires n <= I32_MAX
  {
    PushShape(n);
    if n == 0 then [0x00]
    else if n <= 16 then [0x50 + n]
    else [|ScriptNumber(n)|] + ScriptNumber(n)
  }

  function CheckHeight(script: Script, height: u32): Result<(), AncestryError> {
    if height > I32_MAX then Err(InvalidCoinbaseHeight)
    else if !(2 <= |script| <= 100) || !(PushInt(height) <= script) then Err(InvalidCoinbaseHeight)
    else Ok(())
  }

  lemma {:induction false} MinimalValue(n: nat)
    ensures FromLE(Minimal(n)) == n
  {
    if n > 0 {
      MinimalValue(n / 256);
      assert Minimal(n)[1..] == Minimal(n / 256);
    }
  }

  lemma {:induction false} TrailingZero(s: seq<byte>)
    ensures FromLE(s + [0]) == FromLE(s)
  {
    if s != [] {
      TrailingZero(s[1..]);
      assert (s + [0])[1..] == s[1..] + [0];
    }
  }

  lemma ScriptNumberValue(n: nat)
    ensures FromLE(ScriptNumber(n)) == n
  {
    MinimalValue(n);
    TrailingZero(Minimal(n));
  }

  lemma {:induction false} MinimalLength(n: nat, w: nat)
    requires n < Pow256(w)
    ensures |Minimal(n)| <= w
  {
    if n > 0 { MinimalLength(n / 256, w - 1); }
  }

  /** Height pushes are short, so their first byte tells zero, small numbers and lengths apart. */
  lemma PushShape(n: nat)
    requires n <= I32_MAX
    ensures n > 16 ==> 1 <= |ScriptNumber(n)| <= 5
  {
    Widths();
    MinimalLength(n, 4);
  }

  /** No height push starts another: two that start one script are the same height. */
  lemma PushPrefixFree(m: nat, n: nat, script: seq<byte>)
    requires m <= I32_MAX && n <= I32_MAX
    requires PushInt(m) <= script && PushInt(n) <= script
    ensures m == n
  {
    hide ScriptNumber;
    PushShape(m);
    PushShape(n);
    assert PushInt(m)[0] == script[0] == PushInt(n)[0];
    if m > 16 && n > 16 {
      assert PushInt(m) == script[..|PushInt(m)|] == PushInt(n);
      assert ScriptNumber(m) == PushInt(m)[1..] && ScriptNumber(n) == PushInt(n)[1..];
      ScriptNumberValue(m);
      ScriptNumberValue(n);
    }
  }

  /** A coinbase script commits to at most one height. */
  lemma OneHeight(script: Script, m: u32, n: u32)
    requires CheckHeight(script, m).Ok? && CheckHeight(script, n).Ok?
    ensures m == n
  {
    PushPrefixFree(m, n, script);
  }

  /** Bytes without a leading zero are the minimal bytes of their value. */
  lemma {:induction false} MinimalUnique(s: seq<byte>)
    requires s != [] ==> s[|s| - 1] != 0
    ensures Minimal(FromLE(s)) == s
  {
    if s != [] {
      MinimalUnique(s[1..]);
      var rest := FromLE(s[1..]);
      assert FromLE(s) == s[0] + 256 * rest && FromLE(s) % 256 == s[0] && FromLE(s) / 256 == rest;
      assert s == [s[0]] + s[1..];
      assert Minimal(0) == [];
    }
  }

  /** The bytes are a positive script number, written as short as its sign bit allows, of value `n`. */
  predicate IsScriptNumber(s: seq<byte>, n: nat) {
    && s != [] && FromLE(s) == n && s[|s| - 1] < 0x80
    && (s[|s| - 1] == 0 ==> |s| > 1 && s[|s| - 2] >= 0x80)
  }

  lemma ScriptNumberIff(s: seq<byte>, n: nat)
    requires n > 0
    ensures s == ScriptNumber(n) <==> IsScriptNumber(s, n)
  {
    var m := Minimal(n);
    ScriptNumberValue(n);
    if IsScriptNumber(s, n) {
      if s[|s| - 1] != 0 {
        MinimalUnique(s);
      } else {
        var t := s[..|s| - 1];
        assert s == t + [0];
        TrailingZero(t);
        MinimalUnique(t);
      }
    }
  }

  /** The script starts with the push of this height: zero and the small numbers have opcodes of their
      own, the rest are length-prefixed script numbers. */
  predicate Pushes(script: seq<byte>, height: nat)
    requires script != []
  {
    if height == 0 then script[0] == 0
    else if height <= 16 then script[0] == 0x50 + height
    else
      var n := script[0];
      1 <= n <= 5 && n < |script| && IsScriptNumber(script[1..n + 1], height)
  }

  /** A coinbase script commits to a height exactly when it is between 2 and 100 bytes long and starts
      with the push of that height, which fits a signed 32-bit number. */
  lemma HeightIff(script: Script, height: u32)
    ensures CheckHeight(script, height).Ok? <==>
              height <= 0x7fff_ffff && 2 <= |script| <= 100 && Pushes(script, height)
  {
    hide ScriptNumber, IsScriptNumber;
    if height <= I32_MAX && 2 <= |script| <= 100 {
      PushShape(height);
      if height > 16 {
        var n, number := script[0], ScriptNumber(height);
        ScriptNumberIff(number, height);
        if PushInt(height) <= script { assert script[1..n + 1] == number; }
        if Pushes(script, height) {
          ScriptNumberIff(script[1..n + 1], height);
          assert script[..n + 1] == [n] + script[1..n + 1];
        }
      }
    }
  }
}
