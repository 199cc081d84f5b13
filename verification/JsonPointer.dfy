/** Group names as single-segment JSON pointers (sections 3 and 4 of RFC 6901). */
module JsonPointer {
  import opened Text

  /** Every occurrence replaced from left to right; a replacement is not looked at again. */
  function ReplaceAll(s: string, target: string, repl: string): string
    requires target != ""
    decreases |s|
  {
    if |s| < |target| then s
    else if HasPrefix(s, target) then repl + ReplaceAll(s[|target|..], target, repl)
    else [s[0]] + ReplaceAll(s[1..], target, repl)
  }

  function TrimPrefix(s: string, prefix: string): string {
    if HasPrefix(s, prefix) then s[|prefix|..] else s
  }

  /** The name a pointer stands for: ~1 is unescaped first, then ~0. */
  function Decode(pointer: string): string {
    ReplaceAll(ReplaceAll(TrimPrefix(pointer, "/"), "~1", "/"), "~0", "~")
  }

  // ------------------------------------------------------------------ the reference forms

  function EscapedChar(c: char): string {
    if c == '~' then "~0" else if c == '/' then "~1" else [c]
  }

  function Escape(name: string): string {
    if name == "" then "" else EscapedChar(name[0]) + Escape(name[1..])
  }

  function Encode(name: string): string {
    "/" + Escape(name)
  }

  /** Is there an escape at the head? */
  predicate Escaped(s: string) {
    |s| >= 2 && s[0] == '~' && (s[1] == '0' || s[1] == '1')
  }

  /** One pass from left to right that reads each escape once; a stray tilde stands for itself. */
  function Scan(s: string): string {
    if s == "" then ""
    else if Escaped(s) then [if s[1] == '1' then '/' else '~'] + Scan(s[2..])
    else [s[0]] + Scan(s[1..])
  }

  /** The text of one reference token: no slash, and every tilde begins an escape. */
  predicate Canonical(s: string) {
    s == "" || (if Escaped(s) then Canonical(s[2..]) else s[0] != '/' && s[0] != '~' && Canonical(s[1..]))
  }

  // ------------------------------------------------------------------ two passes are one scan

  function Pass1(s: string): string {
    ReplaceAll(s, "~1", "/")
  }

  function Pass0(s: string): string {
    ReplaceAll(s, "~0", "~")
  }

  /** How a pass over "~d" proceeds at the head of a string. */
  lemma {:induction false} PassHead(s: string, d: char, repl: char)
    ensures s == "" ==> ReplaceAll(s, ['~', d], [repl]) == ""
    ensures |s| >= 2 && s[0] == '~' && s[1] == d ==>
              ReplaceAll(s, ['~', d], [repl]) == [repl] + ReplaceAll(s[2..], ['~', d], [repl])
    ensures s != "" && !(|s| >= 2 && s[0] == '~' && s[1] == d) ==>
              ReplaceAll(s, ['~', d], [repl]) == [s[0]] + ReplaceAll(s[1..], ['~', d], [repl])
  {
    if |s| >= 2 {
      assert s[..2] == [s[0], s[1]];
    } else if |s| == 1 {
      assert s[1..] == "";
    }
  }

  lemma {:induction false} Pass1Head(s: string)
    ensures s == "" ==> Pass1(s) == ""
    ensures |s| >= 2 && s[0] == '~' && s[1] == '1' ==> Pass1(s) == "/" + Pass1(s[2..])
    ensures s != "" && !(|s| >= 2 && s[0] == '~' && s[1] == '1') ==> Pass1(s) == [s[0]] + Pass1(s[1..])
  {
    PassHead(s, '1', '/');
    assert "~1" == ['~', '1'] && "/" == ['/'];
  }

  lemma {:induction false} Pass0Head(s: string)
    ensures s == "" ==> Pass0(s) == ""
    ensures |s| >= 2 && s[0] == '~' && s[1] == '0' ==> Pass0(s) == "~" + Pass0(s[2..])
    ensures s != "" && !(|s| >= 2 && s[0] == '~' && s[1] == '0') ==> Pass0(s) == [s[0]] + Pass0(s[1..])
  {
    PassHead(s, '0', '~');
    assert "~0" == ['~', '0'] && "~" == ['~'];
  }

  /** The two passes in the order of the code are a single scan, malformed escapes included. */
  lemma {:induction false} TwoPassesAreOneScan(s: string)
    ensures Pass0(Pass1(s)) == Scan(s)
    decreases |s|
  {
    Pass1Head(s);
    Pass0Head(Pass1(s));
    if s != "" {
      if Escaped(s) {
        TwoPassesAreOneScan(s[2..]);
        Pass1Head(s[1..]);
        assert s[1..][1..] == s[2..];
        if s[1] == '0' {
          assert Pass1(s)[2..] == Pass1(s[2..]);
        } else {
          assert Pass1(s)[1..] == Pass1(s[2..]);
        }
      } else {
        TwoPassesAreOneScan(s[1..]);
        Pass1Head(s[1..]);
        assert Pass1(s)[1..] == Pass1(s[1..]);
      }
    }
  }

  /** Decoding is the reference scan of the text after the leading slash, present or not. */
  lemma {:induction false} DecodeIsScan(pointer: string)
    ensures Decode(pointer) == Scan(TrimPrefix(pointer, "/"))
    ensures Decode("/" + pointer) == Scan(pointer)
    ensures pointer == "" || pointer[0] != '/' ==> Decode(pointer) == Scan(pointer)
  {
    TwoPassesAreOneScan(TrimPrefix(pointer, "/"));
    TwoPassesAreOneScan(pointer);
    assert ("/" + pointer)[..1] == "/" && ("/" + pointer)[1..] == pointer;
  }

  // ------------------------------------------------------------------ round trips

  lemma {:induction false} ScanEscape(name: string)
    ensures Scan(Escape(name)) == name && Canonical(Escape(name))
  {
    if name != "" {
      ScanEscape(name[1..]);
      var e, rest := Escape(name), Escape(name[1..]);
      if name[0] == '~' || name[0] == '/' {
        assert e[0] == '~' && e[2..] == rest;
      } else {
        assert e[0] == name[0] && e[1..] == rest;
      }
    }
  }

  lemma {:induction false} EscapeScan(s: string)
    ensures Escape(Scan(s)) == s <==> Canonical(s)
  {
    if Escape(Scan(s)) == s {
      ScanEscape(Scan(s));
    }
    if Canonical(s) && s != "" {
      if Escaped(s) {
        EscapeScan(s[2..]);
        assert Scan(s)[1..] == Scan(s[2..]);
        assert s == s[..2] + s[2..];
      } else {
        EscapeScan(s[1..]);
        assert Scan(s)[1..] == Scan(s[1..]);
      }
    }
  }

  /** Every group name comes back from its pointer. */
  lemma {:induction false} DecodeEncode(name: string)
    ensures Decode(Encode(name)) == name
  {
    DecodeIsScan(Escape(name));
    ScanEscape(name);
  }

  /** A pointer comes back from its group name exactly when it is a well-formed single segment. */
  lemma {:induction false} EncodeDecodeIff(pointer: string)
    ensures Encode(Decode(pointer)) == pointer <==> HasPrefix(pointer, "/") && Canonical(pointer[1..])
  {
    DecodeIsScan(pointer);
    var e := Encode(Decode(pointer));
    assert e[..1] == "/" && e[1..] == Escape(Decode(pointer));
    if HasPrefix(pointer, "/") {
      assert pointer == "/" + pointer[1..];
      EscapeScan(pointer[1..]);
    }
  }

  /** Different well-formed pointers name different groups. */
  lemma {:induction false} DecodeInjective(p: string, q: string)
    requires HasPrefix(p, "/") && Canonical(p[1..]) && HasPrefix(q, "/") && Canonical(q[1..])
    requires Decode(p) == Decode(q)
    ensures p == q
  {
    EncodeDecodeIff(p);
    EncodeDecodeIff(q);
  }

  /** Only the empty pointer and "/" stand for the empty name. */
  lemma {:induction false} EmptyNameIff(pointer: string)
    ensures Decode(pointer) == "" <==> pointer == "" || pointer == "/"
  {
    DecodeIsScan(pointer);
  }

  lemma {:induction false} ReplaceOne(s: string, c: char, repl: string)
    requires s != ""
    ensures ReplaceAll(s, [c], repl) == (if s[0] == c then repl else [s[0]]) + ReplaceAll(s[1..], [c], repl)
  {
    assert s[..1] == [s[0]];
  }

  /** Escaping too is two replacements, in the opposite order: tildes first. */
  lemma {:induction false} EscapeIsTwoPasses(name: string)
    ensures Escape(name) == ReplaceAll(ReplaceAll(name, ['~'], "~0"), ['/'], "~1")
  {
    if name != "" {
      EscapeIsTwoPasses(name[1..]);
      ReplaceOne(name, '~', "~0");
      var once := ReplaceAll(name, ['~'], "~0");
      ReplaceOne(once, '/', "~1");
      if name[0] == '~' {
        ReplaceOne(once[1..], '/', "~1");
        assert once[1..][1..] == ReplaceAll(name[1..], ['~'], "~0");
      }
    }
  }

  // ------------------------------------------------------------------ the other order

  /** How often "~01" occurs. */
  function EscapedTildeOnes(s: string): nat {
    if |s| < 3 then 0 else (if s[..3] == "~01" then 1 else 0) + EscapedTildeOnes(s[1..])
  }

  /** Unescaping ~0 first loses one character at every "~01", and agrees with the scan elsewhere. */
  lemma {:induction false} OtherOrder(s: string)
    ensures |Pass1(Pass0(s))| == |Scan(s)| - EscapedTildeOnes(s)
    ensures EscapedTildeOnes(s) == 0 ==> Pass1(Pass0(s)) == Scan(s)
    decreases |s|
  {
    Pass0Head(s);
    Pass1Head(Pass0(s));
    if |s| >= 3 && s[0] == '~' && s[1] == '0' && s[2] == '1' {
      OtherOrder(s[3..]);
      Pass0Head(s[2..]);
      assert s[2..][1..] == s[3..] && s[1..][1..] == s[2..] && s[..3] == "~01";
      assert Pass0(s)[2..] == Pass0(s[3..]);
      assert Scan(s) == "~" + Scan(s[2..]) && Scan(s[2..]) == "1" + Scan(s[3..]);
      CountSkips(s, 3);
    } else if s != "" && Escaped(s) {
      OtherOrder(s[2..]);
      Pass0Head(s[1..]);
      Pass0Head(s[2..]);
      assert s[1..][1..] == s[2..];
      assert Pass0(s)[(if s[1] == '1' then 2 else 1)..] == Pass0(s[2..]);
      assert |s| >= 3 ==> s[..3][2] == s[2];
      CountSkips(s, 2);
    } else if s != "" {
      OtherOrder(s[1..]);
      Pass0Head(s[1..]);
      assert Pass0(s)[1..] == Pass0(s[1..]);
      assert |s| >= 3 ==> s[..3][1] == s[1] && s[..3][0] == s[0];
    }
  }

  /** Text that does not start with a tilde starts no occurrence. */
  lemma {:induction false} CountSkip(s: string)
    requires s != "" && s[0] != '~'
    ensures EscapedTildeOnes(s) == EscapedTildeOnes(s[1..])
  {
    assert |s| >= 3 ==> s[..3][0] == s[0];
  }

  lemma {:induction false} CountSkips(s: string, n: nat)
    requires 2 <= n <= 3 && n <= |s| && s[1] != '~' && (n == 3 ==> s[2] != '~')
    ensures EscapedTildeOnes(s) == (if |s| >= 3 && s[..3] == "~01" then 1 else 0) + EscapedTildeOnes(s[n..])
  {
    CountSkip(s[1..]);
    assert s[1..][1..] == s[2..];
    if n == 3 {
      CountSkip(s[2..]);
      assert s[2..][1..] == s[3..];
    }
  }

  predicate OccursAt(s: string, i: nat) {
    i + 3 <= |s| && s[i..i + 3] == "~01"
  }

  lemma {:induction false} CountsOccurrences(s: string)
    ensures EscapedTildeOnes(s) == 0 <==> forall i: nat :: !OccursAt(s, i)
  {
    if |s| >= 3 {
      CountsOccurrences(s[1..]);
      assert s[..3] == s[0..3];
      if i: nat :| OccursAt(s, i) {
        if i > 0 {
          assert s[1..][i - 1..i + 2] == s[i..i + 3];
          assert OccursAt(s[1..], i - 1);
        }
      } else {
        assert !OccursAt(s, 0);
        forall i: nat ensures !OccursAt(s[1..], i) {
          assert !OccursAt(s, i + 1);
          if i + 4 <= |s| {
            assert s[1..][i..i + 3] == s[i + 1..i + 4];
          }
        }
      }
    }
  }

  /** The order of the passes matters exactly for the strings that contain "~01". */
  lemma {:induction false} OrderMattersIff(s: string)
    ensures Pass1(Pass0(s)) != Pass0(Pass1(s)) <==> exists i: nat :: OccursAt(s, i)
  {
    OtherOrder(s);
    TwoPassesAreOneScan(s);
    CountsOccurrences(s);
  }

  lemma {:induction false} OtherOrderFails()
    ensures Pass0(Pass1("~01")) == "~1" && Pass1(Pass0("~01")) == "/"
  {
    Pass1Head("~01");
    Pass1Head("01");
    Pass1Head("1");
    Pass1Head("");
    TwoPassesAreOneScan("~01");
    Pass0Head("~01");
    Pass0Head("1");
    Pass0Head("");
    assert "~01"[2..] == "1" && "1"[1..] == "" && "~1"[2..] == "";
    assert Pass0("~01") == "~1";
    Pass1Head("~1");
    assert Scan("1") == "1";
  }
}
