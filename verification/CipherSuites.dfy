/** Lists of cipher suites: their wire form and the search for a common one, as the handshake of
crypto/noise.go and the negotiation of crypto/negotiation.go both use them. */
module CipherSuites {
  import opened Bits
  import opened Bytes
  import opened Wrappers

  function SuiteBytes(suites: seq<uint16>): (s: bytes)
    ensures |s| == 2 * |suites|
  {
    if suites == [] then [] else U16(suites[0]) + SuiteBytes(suites[1..])
  }

  function ParseSuites(s: bytes, count: nat): (suites: seq<uint16>)
    requires |s| == 2 * count
    ensures |suites| == count
  {
    if count == 0 then [] else [GetU16(s)] + ParseSuites(s[2..], count - 1)
  }

  lemma {:induction false} SuitesRoundTrip(suites: seq<uint16>)
    ensures ParseSuites(SuiteBytes(suites), |suites|) == suites
  {
    if suites != [] {
      var rest := SuiteBytes(suites[1..]);
      U16RoundTrip(suites[0], rest);
      assert SuiteBytes(suites)[2..] == rest;
      SuitesRoundTrip(suites[1..]);
    }
  }

  lemma {:induction false} SuitesReencode(s: bytes, count: nat)
    requires |s| == 2 * count
    ensures SuiteBytes(ParseSuites(s, count)) == s
  {
    if count > 0 {
      SuitesReencode(s[2..], count - 1);
      var suites := ParseSuites(s, count);
      assert suites[1..] == ParseSuites(s[2..], count - 1);
      U16Reencodes(s);
      assert s == s[..2] + s[2..];
    }
  }

  /** The first of `offered` that is in `supported`. */
  function FirstCommon(offered: seq<uint16>, supported: seq<uint16>): Option<uint16> {
    if offered == [] then None
    else if offered[0] in supported then Some(offered[0])
    else FirstCommon(offered[1..], supported)
  }

  lemma {:induction false} FirstCommonIsCommon(offered: seq<uint16>, supported: seq<uint16>)
    ensures match FirstCommon(offered, supported)
            case None => forall s | s in offered :: s !in supported
            case Some(s) => s in offered && s in supported
  {
    if offered != [] { FirstCommonIsCommon(offered[1..], supported); }
  }

  /** Every element before the first common one is not supported. */
  lemma {:induction false} FirstCommonPosition(offered: seq<uint16>, supported: seq<uint16>)
    ensures match FirstCommon(offered, supported)
            case None => true
            case Some(s) =>
              exists k :: 0 <= k < |offered| && offered[k] == s && forall j | 0 <= j < k :: offered[j] !in supported
  {
    if offered != [] && offered[0] !in supported {
      FirstCommonPosition(offered[1..], supported);
      if FirstCommon(offered[1..], supported).Some? {
        var k :| 0 <= k < |offered[1..]| && offered[1..][k] == FirstCommon(offered[1..], supported).value
                 && forall j | 0 <= j < k :: offered[1..][j] !in supported;
        forall j | 0 <= j < k + 1 ensures offered[j] !in supported {
          if j > 0 { assert offered[1..][j - 1] !in supported; }
        }
        assert offered[k + 1] == FirstCommon(offered, supported).value;
      }
    }
  }

  method WriteSuites(suites: seq<uint16>) returns (s: bytes)
    ensures s == SuiteBytes(suites)
  {
    s := [];
    for i := 0 to |suites|
      invariant s + SuiteBytes(suites[i..]) == SuiteBytes(suites)
    {
      var rest := suites[i..];
      assert rest[0] == suites[i] && rest[1..] == suites[i + 1..];
      assert s + (U16(suites[i]) + SuiteBytes(suites[i + 1..])) == s + U16(suites[i]) + SuiteBytes(suites[i + 1..]);
      s := s + U16(suites[i]);
    }
    assert suites[|suites|..] == [] && s + [] == s;
  }

  lemma Append(a: seq<uint16>, x: uint16, b: seq<uint16>)
    ensures a + ([x] + b) == a + [x] + b
  {}

  method ReadSuites(message: bytes, from: nat, count: nat) returns (suites: seq<uint16>)
    requires from + 2 * count <= |message|
    ensures suites == ParseSuites(message[from..from + 2 * count], count)
  {
    suites := [];
    var offset, end := from, from + 2 * count;
    for i := 0 to count
      invariant offset == from + 2 * i
      invariant suites + ParseSuites(message[offset..end], count - i) == ParseSuites(message[from..end], count)
    {
      var field := message[offset..end];
      assert field[2..] == message[offset + 2..end];
      var suite := GetU16(message[offset..offset + 2]);
      assert GetU16(field) == suite;
      Append(suites, suite, ParseSuites(message[offset + 2..end], count - i - 1));
      suites := suites + [suite];
      offset := offset + 2;
    }
    assert suites + [] == suites;
  }

  /** The nested search loops: outer over `offered`, inner over `supported`. */
  method FindCommon(offered: seq<uint16>, supported: seq<uint16>) returns (found: Option<uint16>)
    ensures found == FirstCommon(offered, supported)
  {
    for i := 0 to |offered|
      invariant FirstCommon(offered[i..], supported) == FirstCommon(offered, supported)
    {
      assert offered[i..][1..] == offered[i + 1..];
      for j := 0 to |supported|
        invariant offered[i] !in supported[..j]
      {
        if offered[i] == supported[j] {
          assert offered[i] in supported;
          return Some(offered[i]);
        }
      }
      assert supported[..|supported|] == supported;
    }
    assert offered[|offered|..] == [];
    return None;
  }
}
