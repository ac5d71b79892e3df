/**
  Screen name comparison (src/util.c). A name is its bytes in front of the terminator.
*/
module ScreenNames {
  import opened Octets

  const SPACE: byte := 0x20

  // toupper in the C locale.
  function Upper(c: byte): byte {
    if 0x61 <= c <= 0x7a then c - 0x20 else c
  }

  // What a character counts for.
  function Kept(c: byte): seq<byte> {
    if c == SPACE then [] else [Upper(c)]
  }

  // The name without its spaces, in upper case.
  function Normal(sn: seq<byte>): seq<byte> {
    if |sn| == 0 then [] else Kept(sn[0]) + Normal(sn[1..])
  }

  // How many spaces the name ends in.
  function Trailing(sn: seq<byte>): (n: nat)
    ensures n <= |sn|
  {
    if |sn| == 0 || sn[|sn| - 1] != SPACE then 0 else 1 + Trailing(sn[..|sn| - 1])
  }

  // What aim_sncmp decides.
  ghost predicate Same(sn1: seq<byte>, sn2: seq<byte>) {
    Normal(sn1) == Normal(sn2) && Trailing(sn1) == Trailing(sn2)
  }

  lemma {:induction false} TrailingStep(c: byte, sn: seq<byte>)
    ensures Trailing([c] + sn) == if c == SPACE && Trailing(sn) == |sn| then |sn| + 1 else Trailing(sn)
  {
    var s := [c] + sn;
    if |sn| == 0 {
      assert s[..0] == [];
    } else {
      assert s[..|sn|] == [c] + sn[..|sn| - 1];
      TrailingStep(c, sn[..|sn| - 1]);
    }
  }

  lemma {:induction false} OnlySpaces(sn: seq<byte>)
    ensures Normal(sn) == [] <==> Trailing(sn) == |sn|
  {
    if |sn| > 0 {
      assert sn == [sn[0]] + sn[1..];
      TrailingStep(sn[0], sn[1..]);
      OnlySpaces(sn[1..]);
    }
  }

  // One character further.
  lemma Ahead(sn: seq<byte>)
    requires |sn| > 0
    ensures sn[0] == SPACE ==> Normal(sn) == Normal(sn[1..])
    ensures sn[0] != SPACE ==> Normal(sn) == [Upper(sn[0])] + Normal(sn[1..])
    ensures Trailing(sn) == if sn[0] == SPACE && Normal(sn) == [] then |sn| else Trailing(sn[1..])
    ensures Normal(sn) == [] ==> Trailing(sn) == |sn| && Trailing(sn[1..]) == |sn| - 1
  {
    assert sn == [sn[0]] + sn[1..];
    TrailingStep(sn[0], sn[1..]);
    OnlySpaces(sn[1..]);
    OnlySpaces(sn);
  }

  // Passing over a space decides nothing, as long as both names have theirs passed over.
  lemma SkipSpaces(u: seq<byte>, v: seq<byte>)
    requires |u| > 0 && |v| > 0 && (u[0] == SPACE || v[0] == SPACE)
    ensures Same(u, v) <==> Same(if u[0] == SPACE then u[1..] else u, if v[0] == SPACE then v[1..] else v)
  {
    Ahead(u);
    Ahead(v);
    hide Normal, Trailing;
  }

  lemma MatchOne(u: seq<byte>, v: seq<byte>)
    requires |u| > 0 && |v| > 0 && u[0] != SPACE && v[0] != SPACE
    ensures Same(u, v) <==> Upper(u[0]) == Upper(v[0]) && Same(u[1..], v[1..])
  {
    Ahead(u);
    Ahead(v);
    hide Trailing;
    assert Normal(u)[1..] == Normal(u[1..]) && Normal(v)[1..] == Normal(v[1..]);
  }

  lemma AtEnd(u: seq<byte>, v: seq<byte>)
    requires |u| == 0 || |v| == 0
    ensures Same(u, v) <==> |u| == 0 && |v| == 0
  {
    OnlySpaces(u);
    OnlySpaces(v);
  }

  // aim_snlen.
  method Length(sn: seq<byte>) returns (i: nat)
    ensures i == |Normal(sn)|
  {
    i := 0;
    var curPtr := 0;
    while curPtr < |sn|
      invariant curPtr <= |sn| && i + |Normal(sn[curPtr..])| == |Normal(sn)|
    {
      if sn[curPtr] != SPACE {
        i := i + 1;
      }
      assert sn[curPtr..][1..] == sn[curPtr + 1..];
      curPtr := curPtr + 1;
    }
  }

  /** aim_sncmp: 0 exactly for names that are equal without spaces and in upper case and end in
      the same number of spaces. */
  method Compare(sn1: seq<byte>, sn2: seq<byte>) returns (r: int)
    ensures r == 0 || r == 1
    ensures r == 0 <==> Same(sn1, sn2)
  {
    var len1 := Length(sn1);
    var len2 := Length(sn2);
    if len1 != len2 {
      return 1;
    }
    hide Normal, Trailing, Same;
    var curPtr1, curPtr2 := 0, 0;
    assert sn1[0..] == sn1 && sn2[0..] == sn2;
    while curPtr1 < |sn1| && curPtr2 < |sn2|
      invariant curPtr1 <= |sn1| && curPtr2 <= |sn2|
      invariant Same(sn1[curPtr1..], sn2[curPtr2..]) <==> Same(sn1, sn2)
      decreases |sn1| - curPtr1 + |sn2| - curPtr2
    {
      ghost var u, v := sn1[curPtr1..], sn2[curPtr2..];
      assert u[1..] == sn1[curPtr1 + 1..] && v[1..] == sn2[curPtr2 + 1..];
      if sn1[curPtr1] == SPACE || sn2[curPtr2] == SPACE {
        SkipSpaces(u, v);
        if sn1[curPtr1] == SPACE {
          curPtr1 := curPtr1 + 1;
        }
        if sn2[curPtr2] == SPACE {
          curPtr2 := curPtr2 + 1;
        }
      } else {
        MatchOne(u, v);
        if Upper(sn1[curPtr1]) != Upper(sn2[curPtr2]) {
          return 1;
        }
        curPtr1 := curPtr1 + 1;
        curPtr2 := curPtr2 + 1;
      }
    }
    AtEnd(sn1[curPtr1..], sn2[curPtr2..]);
    r := if curPtr1 < |sn1| || curPtr2 < |sn2| then 1 else 0;
  }

  lemma Equivalence(sn1: seq<byte>, sn2: seq<byte>, sn3: seq<byte>)
    ensures Same(sn1, sn1) && (Same(sn1, sn2) ==> Same(sn2, sn1))
    ensures Same(sn1, sn2) && Same(sn2, sn3) ==> Same(sn1, sn3)
  {
  }

  lemma {:induction false} NormalAppend(s: seq<byte>, t: seq<byte>)
    ensures Normal(s + t) == Normal(s) + Normal(t)
  {
    hide Kept;
    if |s| == 0 {
      assert s + t == t;
    } else {
      NormalAppend(s[1..], t);
      assert (s + t)[1..] == s[1..] + t && (s + t)[0] == s[0];
      var head, a, b := Kept(s[0]), Normal(s[1..]), Normal(t);
      assert head + (a + b) == head + a + b;
    }
  }

  lemma {:induction false} TrailingAppend(s: seq<byte>, t: seq<byte>)
    ensures Trailing(s + t) == if Normal(t) == [] then Trailing(s) + |t| else Trailing(t)
  {
    if |s| == 0 {
      assert s + t == t;
      OnlySpaces(t);
    } else {
      TrailingAppend(s[1..], t);
      NormalAppend(s[1..], t);
      assert s + t == [s[0]] + (s[1..] + t) && s == [s[0]] + s[1..];
      TrailingStep(s[0], s[1..] + t);
      TrailingStep(s[0], s[1..]);
      OnlySpaces(s[1..] + t);
    }
  }

  // Another form of the same letter.
  predicate OtherCase(a: byte, b: byte) {
    (0x41 <= a <= 0x5a && b == a + 0x20) || (0x61 <= a <= 0x7a && b == a - 0x20)
  }

  /** Putting another character in the place of one that is not a space leaves the name the same
      exactly when it is the same letter in the other case. */
  lemma CaseIgnored(s: seq<byte>, a: byte, b: byte, t: seq<byte>)
    requires a != ' ' as int && b != ' ' as int
    ensures Same(s + [a] + t, s + [b] + t) <==> a == b || OtherCase(a, b)
  {
    NormalAround(s, a, t);
    NormalAround(s, b, t);
    TrailingAround(s, a, t);
    TrailingAround(s, b, t);
    UppersEqual(a, b);
    hide Normal, Trailing, Upper, OtherCase;
    var n := Normal(s);
    assert (n + [Upper(a)] + Normal(t))[|n|] == Upper(a);
    assert (n + [Upper(b)] + Normal(t))[|n|] == Upper(b);
  }

  lemma UppersEqual(a: byte, b: byte)
    ensures Upper(a) == Upper(b) <==> a == b || OtherCase(a, b)
  {
  }

  lemma NormalAround(s: seq<byte>, a: byte, t: seq<byte>)
    requires a != SPACE
    ensures Normal(s + [a] + t) == Normal(s) + [Upper(a)] + Normal(t)
  {
    var one := [a];
    assert one[1..] == [];
    assert Normal(one) == [Upper(a)];
    NormalAppend(s, one);
    NormalAppend(s + one, t);
  }

  lemma TrailingAround(s: seq<byte>, a: byte, t: seq<byte>)
    requires a != SPACE
    ensures Trailing(s + [a] + t) == if Normal(t) == [] then |t| else Trailing(t)
  {
    var one := [a];
    assert one[1..] == [];
    assert Normal(one) != [];
    TrailingAppend(s, one);
    TrailingAppend(s + one, t);
  }

  /** A space put into a name makes a different name exactly when nothing but spaces follows
      it, although spaces are documented as ignored. */
  lemma InsertedSpace(s: seq<byte>, t: seq<byte>)
    ensures Same(s + [SPACE] + t, s + t) <==> Normal(t) != []
  {
    var one := [SPACE];
    assert one[1..] == [] && Normal(one) == [];
    hide Normal, Trailing;
    NormalAppend(s, one);
    NormalAppend(s + one, t);
    NormalAppend(s, t);
    assert Normal(s + one + t) == Normal(s + t) by {
      assert Normal(s) + [] == Normal(s);
    }
    TrailingAppend(s, one);
    TrailingAppend(s + one, t);
    TrailingAppend(s, t);
    assert Trailing(s + one + t) == Trailing(s + t) <==> Normal(t) != [];
  }
}
