/** Paths written with dots, innermost element first (src/dns256/path.go). */
module Dots {
  import opened Wrappers
  import opened Dns

  /** The pieces of x between dots. */
  function Split(x: string): (parts: seq<string>)
    ensures |parts| > 0
  {
    if x == "" then [""]
    else if x[0] == '.' then [""] + Split(x[1..])
    else var rest := Split(x[1..]); [[x[0]] + rest[0]] + rest[1..]
  }

  function Join(parts: seq<string>): string
    requires parts != []
  {
    if |parts| == 1 then parts[0] else parts[0] + "." + Join(parts[1..])
  }

  predicate ValidChar(c: char) {
    'a' <= c <= 'z' || 'A' <= c <= 'Z' || '0' <= c <= '9' || c == '-' || c == '_'
  }

  predicate ValidElem(e: string) {
    e != "" && forall i :: 0 <= i < |e| ==> ValidChar(e[i])
  }

  predicate AllValid(path: seq<string>) {
    forall i :: 0 <= i < |path| ==> ValidElem(path[i])
  }

  function Reversed(s: seq<string>): (r: seq<string>)
    ensures |r| == |s|
    ensures forall i :: 0 <= i < |s| ==> r[i] == s[|s| - 1 - i]
  {
    seq(|s|, i requires 0 <= i < |s| => s[|s| - 1 - i])
  }

  /** The swap of element i with its mirror image, for the first half of the elements. */
  method ReverseInPlace(a: array<string>)
    modifies a
    ensures a[..] == Reversed(old(a[..]))
  {
    ghost var was := a[..];
    var n := a.Length;
    for i := 0 to n / 2
      invariant forall k :: 0 <= k < i ==> a[k] == was[n - 1 - k] && a[n - 1 - k] == was[k]
      invariant forall k :: i <= k < n - i ==> a[k] == was[k]
    {
      var j := n - 1 - i;
      a[i], a[j] := a[j], a[i];
    }
  }

  /** Letters, digits, hyphens, underscores and dots, with no dot at either end or next to another. */
  ghost predicate WellDotted(x: string) {
    && x != "" && x[0] != '.' && x[|x| - 1] != '.'
    && (forall i :: 0 <= i < |x| - 1 ==> x[i] != '.' || x[i + 1] != '.')
    && (forall i :: 0 <= i < |x| ==>
          'a' <= x[i] <= 'z' || 'A' <= x[i] <= 'Z' || '0' <= x[i] <= '9' || x[i] == '-' || x[i] == '_' || x[i] == '.')
  }

  /** The pieces between the dots are valid exactly for such texts. */
  lemma {:induction false} PiecesValid(x: string)
    requires x != ""
    ensures AllValid(Split(x)) <==> WellDotted(x)
    decreases |x|
  {
    var parts, rest := Split(x), Split(x[1..]);
    if x[0] == '.' {
      assert parts[0] == "" && !ValidElem(parts[0]);
    } else if |x| == 1 {
      assert x[1..] == "" && rest == [""];
      assert [x[0]] + "" == [x[0]] && parts == [[x[0]]];
      PieceThenRest([x[0]], []);
    } else if x[1] == '.' {
      assert x[1..][0] == '.' && x[1..][1..] == x[2..];
      assert rest == [""] + Split(x[2..]) && rest[1..] == Split(x[2..]);
      assert [x[0]] + "" == [x[0]] && parts == [[x[0]]] + Split(x[2..]);
      PieceThenRest([x[0]], Split(x[2..]));
      if |x| == 2 {
        assert x[2..] == "" && Split(x[2..]) == [""] && !ValidElem("");
      } else {
        PiecesValid(x[2..]);
        SkipTwo(x);
        assert [x[0]][0] == x[0] && (ValidElem([x[0]]) <==> ValidChar(x[0]));
      }
    } else {
      PiecesValid(x[1..]);
      SkipOne(x);
      assert x[1..][0] != '.' && rest[0] != "";
      LongerPiece(x[0], rest);
    }
  }

  lemma PieceThenRest(e: string, rest: seq<string>)
    ensures AllValid([e] + rest) <==> ValidElem(e) && AllValid(rest)
  {
    if AllValid([e] + rest) {
      assert ([e] + rest)[0] == e;
      forall i | 0 <= i < |rest| ensures ValidElem(rest[i]) { assert ([e] + rest)[i + 1] == rest[i]; }
    }
  }

  lemma LongerPiece(c: char, rest: seq<string>)
    requires rest != [] && rest[0] != ""
    ensures AllValid([[c] + rest[0]] + rest[1..]) <==> ValidChar(c) && AllValid(rest)
  {
    PieceThenRest([c] + rest[0], rest[1..]);
    PieceThenRest(rest[0], rest[1..]);
    assert [rest[0]] + rest[1..] == rest;
    assert ([c] + rest[0])[0] == c;
    assert forall i :: 0 <= i < |rest[0]| ==> ([c] + rest[0])[i + 1] == rest[0][i];
  }

  lemma SkipOne(x: string)
    requires |x| > 1 && x[0] != '.' && x[1] != '.'
    ensures WellDotted(x) <==> ValidChar(x[0]) && WellDotted(x[1..])
  {
    var y := x[1..];
    if ValidChar(x[0]) && WellDotted(y) {
      forall i | 0 <= i < |x| - 1 ensures x[i] != '.' || x[i + 1] != '.' {
        if i > 0 { assert y[i - 1] != '.' || y[i] != '.'; }
      }
    }
  }

  lemma SkipTwo(x: string)
    requires |x| > 2 && x[0] != '.' && x[1] == '.'
    ensures WellDotted(x) <==> ValidChar(x[0]) && WellDotted(x[2..])
  {
    var y := x[2..];
    if ValidChar(x[0]) && WellDotted(y) {
      forall i | 0 <= i < |x| - 1 ensures x[i] != '.' || x[i + 1] != '.' {
        if i > 1 { assert y[i - 2] != '.' || y[i - 1] != '.'; }
      }
    }
  }

  /** None is the error for an element that is empty or has a character out of place. */
  method ParseDots(x: string) returns (r: Option<Path>)
    ensures x == "" ==> r == Some([])
    ensures x != "" ==> r == if AllValid(Split(x)) then Some(Reversed(Split(x))) else None
    ensures x != "" ==> (r.Some? <==> WellDotted(x))
  {
    if x == "" {
      return Some([]);
    }
    PiecesValid(x);
    var parts := Split(x);
    for i := 0 to |parts|
      invariant AllValid(parts[..i])
    {
      if !ValidElem(parts[i]) {
        return None;
      }
    }
    assert parts[..|parts|] == parts;
    var a := new string[|parts|](i requires 0 <= i < |parts| => parts[i]);
    assert a[..] == parts;
    ReverseInPlace(a);
    r := Some(a[..]);
  }

  lemma {:induction false} JoinSplit(x: string)
    ensures Join(Split(x)) == x
  {
    if x != "" {
      JoinSplit(x[1..]);
      var rest := Split(x[1..]);
      if x[0] == '.' {
        assert ([""] + rest)[1..] == rest;
        assert x == "" + "." + x[1..];
      } else if |rest| > 1 {
        assert ([[x[0]] + rest[0]] + rest[1..])[1..] == rest[1..];
        assert x == [x[0]] + (rest[0] + "." + Join(rest[1..]));
      }
    }
  }

  lemma {:induction false} SplitElem(e: string)
    requires '.' !in e
    ensures Split(e) == [e]
  {
    if e != "" {
      SplitElem(e[1..]);
      assert [e[0]] + e[1..] == e;
    }
  }

  lemma {:induction false} SplitAppend(e: string, rest: string)
    requires '.' !in e
    ensures Split(e + "." + rest) == [e] + Split(rest)
  {
    var x := e + "." + rest;
    if e == "" {
      assert x[1..] == rest;
    } else {
      SplitAppend(e[1..], rest);
      assert x[1..] == e[1..] + "." + rest;
      assert [e[0]] + e[1..] == e;
    }
  }

  lemma {:induction false} SplitJoin(parts: seq<string>)
    requires parts != [] && AllValid(parts)
    ensures Split(Join(parts)) == parts
  {
    assert '.' !in parts[0];
    if |parts| == 1 {
      SplitElem(parts[0]);
    } else {
      SplitJoin(parts[1..]);
      SplitAppend(parts[0], Join(parts[1..]));
    }
  }

  lemma ReversedTwice(s: seq<string>)
    ensures Reversed(Reversed(s)) == s
  {}

  /** Parsing and writing a path with dots are inverse to each other: any path of valid elements
      but the empty one is read back from its text, and any text that parses is the text of its path. */
  lemma DotsRoundTrip(path: Path, x: string)
    ensures path != [] && AllValid(path) ==>
      AllValid(Split(Join(Reversed(path)))) && Reversed(Split(Join(Reversed(path)))) == path
    ensures Join(Reversed(Reversed(Split(x)))) == x
  {
    if path != [] && AllValid(path) {
      SplitJoin(Reversed(path));
      ReversedTwice(path);
    }
    ReversedTwice(Split(x));
    JoinSplit(x);
  }
}
