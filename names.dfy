/** Principal names as text: components joined with '/', then '@' and the
    realm. `Join` is `sep.join(parts)` and `Split` is `s.split(sep)`. */
module Names {
  import opened Bytes

  /** `sep.join(parts)`: pieces free of `sep` are joined with exactly one
      separator between each two. */
  function Join(parts: seq<seq<byte>>, sep: byte): (r: seq<byte>)
    ensures |parts| >= 1 && (forall i :: 0 <= i < |parts| ==> sep !in parts[i]) ==> Count(r, sep) == |parts| - 1
  {
    if |parts| == 0 then []
    else if |parts| == 1 then
      CountAbsent(parts[0], sep);
      parts[0]
    else
      var rest := Join(parts[1..], sep);
      CountAppend(parts[0] + [sep], rest, sep);
      CountAppend(parts[0], [sep], sep);
      CountAbsent(parts[0], sep);
      assert [sep][1..] == [];
      assert (forall i :: 0 <= i < |parts| ==> sep !in parts[i]) ==>
             (forall i :: 0 <= i < |parts[1..]| ==> sep !in parts[1..][i]) by {
        assert forall i :: 0 <= i < |parts[1..]| ==> parts[1..][i] == parts[i + 1];
      }
      parts[0] + [sep] + rest
  }

  /** `s.split(sep)`: the pieces between occurrences of `sep`; never empty. */
  function Split(s: seq<byte>, sep: byte): (r: seq<seq<byte>>)
    ensures |r| >= 1
  {
    if s == [] then [[]]
    else
      var rest := Split(s[1..], sep);
      if s[0] == sep then [[]] + rest else [[s[0]] + rest[0]] + rest[1..]
  }

  function Count(s: seq<byte>, x: byte): (n: nat)
    ensures n <= |s|
  {
    if s == [] then 0 else (if s[0] == x then 1 else 0) + Count(s[1..], x)
  }

  lemma {:induction false} CountAppend(a: seq<byte>, b: seq<byte>, x: byte)
    ensures Count(a + b, x) == Count(a, x) + Count(b, x)
  {
    if a == [] {
      assert a + b == b;
    } else {
      assert (a + b)[1..] == a[1..] + b;
      CountAppend(a[1..], b, x);
    }
  }

  lemma {:induction false} CountAbsent(s: seq<byte>, x: byte)
    ensures x !in s ==> Count(s, x) == 0
  {
    if s != [] && x !in s {
      assert s == [s[0]] + s[1..];
      CountAbsent(s[1..], x);
    }
  }

  /** The principal text of `components` in `realm`. */
  function PrincipalText(components: seq<seq<byte>>, realm: seq<byte>): seq<byte>
  {
    Join(components, Slash) + [AtSign] + realm
  }

  /** `s.split(sep)[0]`: everything before the first `sep`. */
  function FirstField(s: seq<byte>, sep: byte): (r: seq<byte>)
    ensures sep !in r && r <= s
    ensures |r| < |s| ==> s[|r|] == sep
  {
    if s == [] then []
    else if s[0] == sep then []
    else [s[0]] + FirstField(s[1..], sep)
  }

  lemma {:induction false} SplitHead(s: seq<byte>, sep: byte)
    ensures Split(s, sep)[0] == FirstField(s, sep)
  {
    if s != [] && s[0] != sep {
      SplitHead(s[1..], sep);
    }
  }

  /** Splitting then joining gives the text back. */
  lemma {:induction false} JoinSplit(s: seq<byte>, sep: byte)
    ensures Join(Split(s, sep), sep) == s
  {
    if s != [] {
      var rest := Split(s[1..], sep);
      JoinSplit(s[1..], sep);
      if s[0] == sep {
        assert Split(s, sep) == [[]] + rest;
        assert Split(s, sep)[1..] == rest;
      } else {
        var r := Split(s, sep);
        assert r[1..] == rest[1..];
        if |rest| == 1 {
          assert r == [[s[0]] + rest[0]];
        } else {
          assert rest == [rest[0]] + rest[1..];
          assert Join(rest, sep) == rest[0] + [sep] + Join(rest[1..], sep);
        }
      }
    }
  }

  /** `s.split(sep)` has one more piece than `s` has separators. */
  lemma {:induction false} SplitLength(s: seq<byte>, sep: byte)
    ensures |Split(s, sep)| == Count(s, sep) + 1
  {
    if s != [] {
      SplitLength(s[1..], sep);
    }
  }

  /** No piece of a split contains the separator. */
  lemma {:induction false} SplitPiecesFree(s: seq<byte>, sep: byte)
    ensures forall i :: 0 <= i < |Split(s, sep)| ==> sep !in Split(s, sep)[i]
  {
    if s != [] {
      SplitPiecesFree(s[1..], sep);
      var rest := Split(s[1..], sep);
      if s[0] != sep {
        assert sep !in rest[0];
        var r := Split(s, sep);
        forall i | 0 <= i < |r| ensures sep !in r[i] {
          if i > 0 { assert r[i] == rest[i]; }
        }
      }
    }
  }

  /** Joining pieces that are free of the separator, then splitting, gives
      the pieces back; this fails when a piece contains `sep`, which is why
      principal names with '/' inside a component do not survive a save. */
  lemma {:induction false} SplitJoin(parts: seq<seq<byte>>, sep: byte)
    requires |parts| >= 1
    requires forall i :: 0 <= i < |parts| ==> sep !in parts[i]
    ensures Split(Join(parts, sep), sep) == parts
  {
    if |parts| == 1 {
      SplitOfFree(parts[0], sep, []);
      assert parts[0] + [] == parts[0];
    } else {
      SplitJoin(parts[1..], sep);
      var tail := Join(parts[1..], sep);
      SplitOfFree(parts[0], sep, [sep] + tail);
      assert Join(parts, sep) == parts[0] + ([sep] + tail);
      assert ([sep] + tail)[1..] == tail;
      assert parts == [parts[0]] + parts[1..];
    }
  }

  /** A separator-free prefix `p` is glued onto the first piece of what follows. */
  lemma {:induction false} SplitOfFree(p: seq<byte>, sep: byte, rest: seq<byte>)
    requires sep !in p
    ensures rest == [] ==> Split(p + rest, sep) == [p]
    ensures rest != [] && rest[0] == sep ==> Split(p + rest, sep) == [p] + Split(rest[1..], sep)
  {
    if p == [] {
      assert p + rest == rest;
      if rest != [] && rest[0] == sep {
        assert Split(rest, sep) == [[]] + Split(rest[1..], sep);
      }
    } else {
      SplitOfFree(p[1..], sep, rest);
      assert (p + rest)[1..] == p[1..] + rest;
      assert p == [p[0]] + p[1..];
    }
  }
}
