/**
 * The two computed settings of app/core/config.py: the `LOG_TARGETS`
 * validator, which accepts a comma-separated string or a list, and the
 * Azure key-set URL derived from `AZURE_AUTHORITY`.
 */
module Config {
  import opened Text

  /** The raw `LOG_TARGETS` value handed to the validator: a string, a list, or any other value. */
  datatype LogTargetsInput = TargetsText(text: string) | TargetsList(items: seq<string>) | OtherValue

  /** A target as the string form yields it: not empty, not padded, without a comma. */
  predicate CleanTarget(t: string) {
    t != [] && !IsSpace(t[0]) && !IsSpace(t[|t| - 1]) && ',' !in t
  }

  /** `[x.strip() for x in pieces if x.strip()]`. */
  function KeptPieces(pieces: seq<string>): (r: seq<string>)
    ensures |r| <= |pieces|
    ensures forall i :: 0 <= i < |r| ==> r[i] != [] && !IsSpace(r[i][0]) && !IsSpace(r[i][|r[i]| - 1])
    decreases |pieces|
  {
    if pieces == [] then []
    else
      var n := |pieces| - 1;
      var t := Strip(pieces[n]);
      if t == [] then KeptPieces(pieces[..n]) else KeptPieces(pieces[..n]) + [t]
  }

  /** `parse_log_targets`: split a string on commas, keep a list, fall back to the console otherwise. */
  function ParseLogTargets(v: LogTargetsInput): (r: seq<string>)
    ensures v.TargetsList? ==> r == v.items
    ensures v.OtherValue? ==> r == ["console"]
    ensures v.TargetsText? ==> forall i :: 0 <= i < |r| ==> CleanTarget(r[i])
  {
    match v
    case TargetsText(s) =>
      var r := KeptPieces(Split(s, ','));
      assert forall i :: 0 <= i < |r| ==> ',' !in r[i] by {
        KeptPiecesHaveNoComma(Split(s, ','), s);
      }
      r
    case TargetsList(items) => items
    case OtherValue => ["console"]
  }

  /** The kept pieces of a split on commas contain no comma. */
  lemma {:induction false} KeptPiecesHaveNoComma(pieces: seq<string>, s: string)
    requires pieces == Split(s, ',')
    ensures forall i :: 0 <= i < |KeptPieces(pieces)| ==> ',' !in KeptPieces(pieces)[i]
  {
    SplitPieceChars(s, ',');
    KeptPiecesInherit(pieces, ',');
  }

  /** A character that no piece contains is in none of the kept pieces. */
  lemma {:induction false} KeptPiecesInherit(pieces: seq<string>, c: char)
    requires forall i :: 0 <= i < |pieces| ==> c !in pieces[i]
    ensures forall i :: 0 <= i < |KeptPieces(pieces)| ==> c !in KeptPieces(pieces)[i]
    decreases |pieces|
  {
    if pieces != [] {
      var n := |pieces| - 1;
      KeptPiecesInherit(pieces[..n], c);
      StripAvoids(pieces[n], c);
    }
  }

  /** Stripping adds no character. */
  lemma StripAvoids(s: string, c: char)
    requires c !in s
    ensures c !in Strip(s)
  {
    StripKeeps(s);
  }

  /** Pieces that are all blank are all dropped. */
  lemma {:induction false} BlankPiecesDropped(pieces: seq<string>)
    requires forall i, j :: 0 <= i < |pieces| && 0 <= j < |pieces[i]| ==> IsSpace(pieces[i][j])
    ensures KeptPieces(pieces) == []
    decreases |pieces|
  {
    if pieces != [] {
      BlankPiecesDropped(pieces[..|pieces| - 1]);
    }
  }

  /** A string of commas and whitespace gives no target at all, not the console default. */
  lemma OnlySeparatorsGiveNoTargets(s: string)
    requires forall i :: 0 <= i < |s| ==> s[i] == ',' || IsSpace(s[i])
    ensures ParseLogTargets(TargetsText(s)) == []
  {
    SplitPieceChars(s, ',');
    var pieces := Split(s, ',');
    forall i, j | 0 <= i < |pieces| && 0 <= j < |pieces[i]| ensures IsSpace(pieces[i][j]) {
      assert pieces[i][j] in s && pieces[i][j] != ',';
    }
    BlankPiecesDropped(pieces);
  }

  /** Clean pieces are kept unchanged and in order. */
  lemma {:induction false} CleanPiecesKept(pieces: seq<string>)
    requires forall i :: 0 <= i < |pieces| ==> CleanTarget(pieces[i])
    ensures KeptPieces(pieces) == pieces
    decreases |pieces|
  {
    if pieces != [] {
      var n := |pieces| - 1;
      CleanPiecesKept(pieces[..n]);
      StripUnpadded(pieces[n]);
      assert pieces[..n] + [pieces[n]] == pieces;
    }
  }

  /** Joining clean targets with commas and parsing the string gives the same targets back. */
  lemma JoinedTargetsRoundTrip(targets: seq<string>)
    requires forall i :: 0 <= i < |targets| ==> CleanTarget(targets[i])
    ensures ParseLogTargets(TargetsText(Join(targets, ","))) == targets
  {
    if targets == [] {
      assert Split("", ',') == [""];
      assert Strip("") == [];
    } else {
      SplitJoin(targets, ',');
      CleanPiecesKept(targets);
    }
  }

  /** `azure_jwks_url`: no URL without an authority, else the authority's v2.0 key-set path. */
  function AzureJwksUrl(authority: Option<string>): (r: Option<string>)
    ensures r.None? <==> authority.None? || authority.value == ""
    ensures r.Some? ==>
      && |r.value| > |authority.value|
      && r.value[..|authority.value|] == authority.value
      && r.value[|authority.value|..] == "/discovery/v2.0/keys"
  {
    match authority
    case None => None
    case Some(a) => if a == "" then None else Some(a + "/discovery/v2.0/keys")
  }
}
