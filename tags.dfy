/**
 * The comma-separated tag parsing that both the create-lead action and the
 * new-lead page apply to the raw tags text:
 * `value.split(",").map(tag => tag.trim()).filter(tag => tag.length > 0)`.
 * No deduplication takes place.
 */
module Tags {
  import opened Text

  /** A well-formed tag: non-empty, already trimmed, free of commas. */
  predicate IsTag(t: string) {
    t != "" && IsTrimmed(t) && ',' !in t
  }

  predicate AllTags(ts: seq<string>) {
    forall i :: 0 <= i < |ts| ==> IsTag(ts[i])
  }

  predicate NoCommas(pieces: seq<string>) {
    forall i :: 0 <= i < |pieces| ==> ',' !in pieces[i]
  }

  /** One piece after `.map(trim).filter(nonEmpty)`: its trimmed text, or nothing. */
  function CleanPiece(piece: string): (r: seq<string>)
    ensures |r| <= 1
    ensures forall i :: 0 <= i < |r| ==> r[i] != "" && IsTrimmed(r[i])
  {
    TrimShape(piece);
    var t := Trim(piece);
    if t != "" then [t] else []
  }

  /** Padding a piece with white space that trimming removes does not change what
      it contributes: cleaning a trimmed piece gives what cleaning the piece gives. */
  lemma CleanPieceOfTrimmed(piece: string)
    ensures CleanPiece(Trim(piece)) == CleanPiece(piece)
  {
    TrimIdempotent(piece);
  }

  /** The `.map(trim).filter(nonEmpty)` stage: the trimmed, non-empty pieces. */
  function CleanPieces(pieces: seq<string>): (r: seq<string>)
    ensures forall i :: 0 <= i < |r| ==> r[i] != "" && IsTrimmed(r[i])
    ensures |r| <= |pieces|
    decreases |pieces|
  {
    if pieces == [] then [] else CleanPiece(pieces[0]) + CleanPieces(pieces[1..])
  }

  /** Trimming never introduces a comma. */
  lemma {:induction false} CleanPiecesNoCommas(pieces: seq<string>)
    requires NoCommas(pieces)
    ensures NoCommas(CleanPieces(pieces))
    decreases |pieces|
  {
    if pieces != [] {
      if ',' in Trim(pieces[0]) { TrimChars(pieces[0], ','); }
      assert NoCommas(CleanPiece(pieces[0]));
      CleanPiecesNoCommas(pieces[1..]);
    }
  }

  /** The tags of a comma-separated text, in source order. */
  function ParseTags(s: string): (r: seq<string>)
    ensures AllTags(r)
  {
    var pieces := Split(s, ',');
    CleanPiecesNoCommas(pieces);
    CleanPieces(pieces)
  }

  /** Cleaning distributes over concatenation: each piece is cleaned where it stands,
      so the order of the source text is kept. */
  lemma {:induction false} CleanPiecesAppend(a: seq<string>, b: seq<string>)
    ensures CleanPieces(a + b) == CleanPieces(a) + CleanPieces(b)
    decreases |a|
  {
    if a == [] {
      assert a + b == b;
    } else {
      assert (a + b)[0] == a[0];
      assert (a + b)[1..] == a[1..] + b;
      CleanPiecesAppend(a[1..], b);
    }
  }

  /** Pieces that are already tags pass through unchanged. */
  lemma {:induction false} CleanPiecesOfTags(ts: seq<string>)
    requires AllTags(ts)
    ensures CleanPieces(ts) == ts
    decreases |ts|
  {
    if ts != [] {
      TrimFixesTrimmed(ts[0]);
      CleanPiecesOfTags(ts[1..]);
      assert [ts[0]] + ts[1..] == ts;
    }
  }

  /** Joining well-formed tags with commas and parsing the text gives them back. */
  lemma ParseJoinRoundTrip(ts: seq<string>)
    requires AllTags(ts)
    ensures ParseTags(Join(ts, ',')) == ts
  {
    if ts == [] {
      assert Split("", ',') == [""];
    } else {
      SplitJoin(ts, ',');
      CleanPiecesOfTags(ts);
    }
  }

  /** Parsing is stable: re-parsing the comma-joined result changes nothing. */
  lemma ParseTagsIdempotent(s: string)
    ensures ParseTags(Join(ParseTags(s), ',')) == ParseTags(s)
  {
    ParseJoinRoundTrip(ParseTags(s));
  }

  /** Empty text gives no tags (split yields one empty piece, which is dropped). */
  lemma ParseTagsEmpty()
    ensures ParseTags("") == []
  {
    assert Split("", ',') == [""];
  }
}
