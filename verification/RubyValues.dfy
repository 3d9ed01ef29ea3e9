/** The Ruby strings and hashes that several components use. */
module RubyValues {
  import opened Wrappers

  /** A hash: its keys in the order of their first insertion. */
  datatype Hash<V> = Hash(keys: seq<string>, at: map<string, V>)

  function NewHash<V>(): Hash<V> {
    Hash([], map[])
  }

  function Put<V>(h: Hash<V>, key: string, value: V): Hash<V> {
    Hash(if key in h.at then h.keys else h.keys + [key], h.at[key := value])
  }

  /** Every key is listed once. */
  ghost predicate WellKeyed<V>(h: Hash<V>) {
    && (forall k :: k in h.at <==> k in h.keys)
    && Distinct(h.keys)
  }

  function Lookup<V>(h: Hash<V>, key: string): Option<V> {
    if key in h.at then Some(h.at[key]) else None
  }

  function Join(parts: seq<string>, separator: string): string {
    if parts == [] then ""
    else if |parts| == 1 then parts[0]
    else parts[0] + separator + Join(parts[1..], separator)
  }

  lemma {:induction false} JoinMore(parts: seq<string>, more: seq<string>, separator: string)
    requires parts != [] && more != []
    ensures Join(parts + more, separator) == Join(parts, separator) + separator + Join(more, separator)
  {
    if |parts| == 1 {
      assert (parts + more)[1..] == more;
    } else {
      assert (parts + more)[1..] == parts[1..] + more;
      JoinMore(parts[1..], more, separator);
      var s, a, b := separator, Join(parts[1..], separator), Join(more, separator);
      assert parts[0] + s + ((a + s) + b) == ((parts[0] + s + a) + s) + b;
    }
  }

  /** All the pieces between separators, empty ones included. */
  function Pieces(s: string, separator: char): (r: seq<string>)
    ensures |r| > 0
  {
    if s == "" then [""]
    else
      var rest := Pieces(s[1..], separator);
      if s[0] == separator then [""] + rest else [[s[0]] + rest[0]] + rest[1..]
  }

  function DropTrailingEmpty(parts: seq<string>): seq<string> {
    if parts != [] && parts[|parts| - 1] == "" then DropTrailingEmpty(parts[..|parts| - 1]) else parts
  }

  /** `String#split` with a one-character separator: trailing empty pieces are dropped. */
  function Split(s: string, separator: char): seq<string> {
    DropTrailingEmpty(Pieces(s, separator))
  }

  lemma {:induction false} PiecesHaveNoSeparator(s: string, separator: char)
    ensures forall p :: p in Pieces(s, separator) ==> separator !in p
  {
    if s != "" {
      PiecesHaveNoSeparator(s[1..], separator);
      var rest := Pieces(s[1..], separator);
      assert rest[0] in rest;
      assert forall p :: p in rest[1..] ==> p in rest;
    }
  }

  lemma {:induction false} PiecesOfPiece(p: string, separator: char)
    requires separator !in p
    ensures Pieces(p, separator) == [p]
  {
    if p != "" {
      PiecesOfPiece(p[1..], separator);
      assert [p[0]] + p[1..] == p;
    }
  }

  lemma {:induction false} PiecesAfter(p: string, s: string, separator: char)
    requires separator !in p
    ensures Pieces(p + [separator] + s, separator) == [p] + Pieces(s, separator)
  {
    var whole := p + [separator] + s;
    if p == "" {
      assert whole[1..] == s;
    } else {
      PiecesAfter(p[1..], s, separator);
      assert whole[1..] == p[1..] + [separator] + s;
      var rest := [p[1..]] + Pieces(s, separator);
      assert rest[1..] == Pieces(s, separator);
      assert [p[0]] + p[1..] == p;
    }
  }

  /** Splitting a join gives the parts back when none of them contains the separator. */
  lemma {:induction false} PiecesOfJoin(parts: seq<string>, separator: char)
    requires parts != [] && forall p :: p in parts ==> separator !in p
    ensures Pieces(Join(parts, [separator]), separator) == parts
  {
    if |parts| == 1 {
      PiecesOfPiece(parts[0], separator);
    } else {
      PiecesOfJoin(parts[1..], separator);
      PiecesAfter(parts[0], Join(parts[1..], [separator]), separator);
      assert parts == [parts[0]] + parts[1..];
    }
  }

  lemma {:induction false} DropTrailingEmptyIsPrefix(parts: seq<string>)
    ensures DropTrailingEmpty(parts) <= parts
    ensures DropTrailingEmpty(parts) != [] ==> DropTrailingEmpty(parts)[|DropTrailingEmpty(parts)| - 1] != ""
    ensures DropTrailingEmpty(parts) == parts <==> parts == [] || parts[|parts| - 1] != ""
  {
    if parts != [] && parts[|parts| - 1] == "" {
      DropTrailingEmptyIsPrefix(parts[..|parts| - 1]);
    }
  }

  /** `split` undoes `join` exactly when no part contains the separator and the last part is not empty. */
  lemma SplitUndoesJoin(parts: seq<string>, separator: char)
    requires parts != []
    ensures Split(Join(parts, [separator]), separator) == parts
            <==> (forall p :: p in parts ==> separator !in p) && parts[|parts| - 1] != ""
  {
    var joined := Join(parts, [separator]);
    if forall p :: p in parts ==> separator !in p {
      PiecesOfJoin(parts, separator);
      DropTrailingEmptyIsPrefix(parts);
    } else {
      PiecesHaveNoSeparator(joined, separator);
      DropTrailingEmptyIsPrefix(Pieces(joined, separator));
    }
  }

  lemma JoinOneMore(parts: seq<string>, last: string, separator: string)
    requires parts != []
    ensures Join(parts + [last], separator) == Join(parts, separator) + separator + last
  {
    JoinMore(parts, [last], separator);
  }

  lemma {:induction false} JoinPieces(s: string, separator: char)
    ensures Join(Pieces(s, separator), [separator]) == s
  {
    if s != "" {
      JoinPieces(s[1..], separator);
      var rest := Pieces(s[1..], separator);
      assert s == [s[0]] + s[1..];
      if s[0] == separator {
        assert ([""] + rest)[1..] == rest;
      } else if |rest| > 1 {
        var grown := [[s[0]] + rest[0]] + rest[1..];
        assert grown[1..] == rest[1..];
        assert [s[0]] + (rest[0] + [separator] + Join(rest[1..], [separator])) ==
               ([s[0]] + rest[0]) + [separator] + Join(rest[1..], [separator]);
      }
    }
  }

  lemma {:induction false} LastPiece(s: string, separator: char)
    ensures var ps := Pieces(s, separator); ps[|ps| - 1] == "" <==> s == "" || s[|s| - 1] == separator
    ensures |Pieces(s, separator)| == 1 && s != "" ==> Pieces(s, separator)[0] != ""
  {
    if s != "" {
      LastPiece(s[1..], separator);
    }
  }

  function StripTrailing(s: string, c: char): string {
    if s != "" && s[|s| - 1] == c then StripTrailing(s[..|s| - 1], c) else s
  }

  lemma {:induction false} PiecesBehind(s: string, separator: char)
    ensures Pieces(s + [separator], separator) == Pieces(s, separator) + [""]
  {
    if s == "" {
      assert ("" + [separator])[1..] == "";
    } else {
      assert (s + [separator])[1..] == s[1..] + [separator];
      PiecesBehind(s[1..], separator);
    }
  }

  /** `join` after `split` leaves out the separators at the end, and nothing else. */
  lemma {:induction false} JoinOfSplit(s: string, separator: char)
    ensures Join(Split(s, separator), [separator]) == StripTrailing(s, separator)
  {
    var parts := Pieces(s, separator);
    if s == "" {
      assert [""][..0] == [] && DropTrailingEmpty([""]) == DropTrailingEmpty([""][..0]);
    } else if s[|s| - 1] == separator {
      var init := s[..|s| - 1];
      assert s == init + [separator];
      PiecesBehind(init, separator);
      assert parts[..|parts| - 1] == Pieces(init, separator);
      JoinOfSplit(init, separator);
    } else {
      LastPiece(s, separator);
      DropTrailingEmptyIsPrefix(parts);
      JoinPieces(s, separator);
    }
  }

  lemma {:induction false} StripTrailingIsPrefix(s: string, c: char)
    ensures StripTrailing(s, c) <= s
    ensures StripTrailing(s, c) == s <==> s == "" || s[|s| - 1] != c
  {
    if s != "" && s[|s| - 1] == c { StripTrailingIsPrefix(s[..|s| - 1], c); }
  }

  lemma {:induction false} StripBehind(first: char, s: string, c: char)
    requires StripTrailing(s, c) != ""
    ensures StripTrailing([first] + s, c) == [first] + StripTrailing(s, c)
  {
    if s[|s| - 1] == c {
      assert ([first] + s)[..|s|] == [first] + s[..|s| - 1];
      StripBehind(first, s[..|s| - 1], c);
    }
  }

  /** `join` undoes `split` exactly when the string does not end with the separator. */
  lemma JoinUndoesSplit(s: string, separator: char)
    ensures Join(Split(s, separator), [separator]) == s <==> s == "" || s[|s| - 1] != separator
  {
    JoinOfSplit(s, separator);
    StripTrailingIsPrefix(s, separator);
  }

  predicate Distinct<T(==)>(xs: seq<T>) {
    forall i, j :: 0 <= i < j < |xs| ==> xs[i] != xs[j]
  }

  /** The distinct elements in the order of their first appearance (Ruby's `uniq`). */
  function Uniq<T(==,!new)>(xs: seq<T>): (r: seq<T>)
    ensures forall x :: x in r <==> x in xs
    ensures Distinct(r)
  {
    if xs == [] then []
    else
      var before, last := Uniq(xs[..|xs| - 1]), xs[|xs| - 1];
      assert xs == xs[..|xs| - 1] + [last];
      if last in before then before else before + [last]
  }
}
