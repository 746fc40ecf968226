/** The settings page of AdminSettingsService.kt: configuration values
    passed through as they are, except the comma-separated list of allowed
    CORS origins, which is split, trimmed and cleared of empty entries. */
module AdminSettingsService {
  import Text
  import Seqs
  import opened Dtos

  /** The configuration values the service is built with. */
  datatype SettingsConfig = SettingsConfig(
    s3Endpoint: string,
    s3Bucket: string,
    s3Region: string,
    maxFileSize: string,
    maxRequestSize: string,
    corsAllowedOrigins: string)

  /** `o` is one of the comma-separated pieces of `config`, trimmed. */
  predicate TrimmedPieceOf(config: string, o: string) {
    exists k :: 0 <= k < |Text.Split(config, ',')| && o == Text.Trim(Text.Split(config, ',')[k])
  }

  /** Trimming cuts a string down to an infix, so it adds no character. */
  lemma TrimAddsNothing(s: string, c: char)
    requires c !in s
    ensures c !in Text.Trim(s)
  {
    var t := Text.TrimStart(s);
    assert t == s[|s| - |t|..];
    var r := Text.TrimEnd(t);
    assert r == t[..|r|];
    assert Text.Trim(s) == r;
  }

  /** `split(",").map { it.trim() }.filter { it.isNotEmpty() }`. */
  function Origins(config: string): seq<string> {
    Seqs.Filter(o => o != [], Seqs.MapSeq(Text.Trim, Text.Split(config, ',')))
  }

  /** No origin is empty, holds a comma or has surrounding whitespace. */
  lemma OriginsAreClean(config: string)
    ensures forall o :: o in Origins(config) ==>
      o != [] && ',' !in o && !Text.IsWhitespace(o[0]) && !Text.IsWhitespace(o[|o| - 1])
  {
    var pieces := Text.Split(config, ',');
    var trimmed := Seqs.MapSeq(Text.Trim, pieces);
    Text.SplitPiecesHaveNoDelimiter(config, ',');
    forall o | o in Origins(config)
      ensures o != [] && ',' !in o && !Text.IsWhitespace(o[0]) && !Text.IsWhitespace(o[|o| - 1])
    {
      var k :| 0 <= k < |trimmed| && trimmed[k] == o;
      TrimAddsNothing(pieces[k], ',');
    }
  }

  /** A string is among the trimmed pieces exactly when it is a trimmed piece. */
  lemma TrimmedMember(config: string, o: string)
    ensures o in Seqs.MapSeq(Text.Trim, Text.Split(config, ',')) <==> TrimmedPieceOf(config, o)
  {
    Seqs.MapSeqMember(Text.Trim, Text.Split(config, ','), o);
  }

  /** The origins are exactly the non-empty trimmed pieces, in their order. */
  lemma OriginsAreTrimmedPieces(config: string)
    ensures forall o :: o in Origins(config) <==> o != [] && TrimmedPieceOf(config, o)
    ensures Seqs.IsSubsequence(Origins(config), Seqs.MapSeq(Text.Trim, Text.Split(config, ',')))
  {
    var trimmed := Seqs.MapSeq(Text.Trim, Text.Split(config, ','));
    var r := Origins(config);
    assert r == Seqs.Filter(o => o != [], trimmed);
    forall o ensures o in r <==> o != [] && TrimmedPieceOf(config, o) {
      assert o in r <==> o in trimmed && o != [];
      TrimmedMember(config, o);
    }
  }

  /** Every piece of `pieces` is blank. */
  predicate AllBlank(pieces: seq<string>) {
    forall k :: 0 <= k < |pieces| ==> Text.IsBlank(pieces[k])
  }

  /** A string is blank when its first character is whitespace and the
      rest is blank. */
  lemma BlankCons(c: char, t: string)
    ensures Text.IsBlank([c] + t) <==> Text.IsWhitespace(c) && Text.IsBlank(t)
  {
    var s := [c] + t;
    if Text.IsBlank(s) {
      assert Text.IsWhitespace(s[0]);
      forall j | 0 <= j < |t| ensures Text.IsWhitespace(t[j]) {
        assert t[j] == s[j + 1];
      }
    }
    if Text.IsWhitespace(c) && Text.IsBlank(t) {
      forall j | 0 <= j < |s| ensures Text.IsWhitespace(s[j]) {
        if j > 0 { assert s[j] == t[j - 1]; }
      }
    }
  }

  /** The pieces of a split are all blank exactly when every character is
      the delimiter or whitespace. */
  lemma {:induction false} SplitAllBlank(s: string, d: char)
    ensures AllBlank(Text.Split(s, d)) <==> forall i :: 0 <= i < |s| ==> s[i] == d || Text.IsWhitespace(s[i])
  {
    if s != [] {
      SplitAllBlank(s[1..], d);
      var rest := Text.Split(s[1..], d);
      var pieces := Text.Split(s, d);
      assert forall i :: 1 <= i < |s| ==> s[i] == s[1..][i - 1];
      BlankCons(s[0], rest[0]);
      if s[0] == d {
        assert pieces[1..] == rest;
        assert forall k :: 1 <= k < |pieces| ==> pieces[k] == rest[k - 1];
      } else {
        assert pieces[0] == [s[0]] + rest[0];
        assert forall k :: 1 <= k < |pieces| ==> pieces[k] == rest[k];
        assert forall j :: 0 <= j < |rest[0]| ==> rest[0][j] == pieces[0][j + 1];
      }
    }
  }

  /** An empty, blank or commas-and-whitespace-only configuration allows no
      origin, and any other allows at least one. */
  lemma NoOriginsIff(config: string)
    ensures Origins(config) == [] <==> forall i :: 0 <= i < |config| ==> config[i] == ',' || Text.IsWhitespace(config[i])
  {
    var pieces := Text.Split(config, ',');
    SplitAllBlank(config, ',');
    var r := Origins(config);
    OriginsAreTrimmedPieces(config);
    if r != [] {
      assert r[0] in r;
      var k :| 0 <= k < |pieces| && r[0] == Text.Trim(pieces[k]);
      assert !Text.IsBlank(pieces[k]);
    } else {
      forall k | 0 <= k < |pieces| ensures Text.IsBlank(pieces[k]) {
        var o := Text.Trim(pieces[k]);
        assert TrimmedPieceOf(config, o);
        assert o !in r;
      }
    }
  }

  /** `getSettings()`: everything passed through but the origin list. */
  function GetSettings(config: SettingsConfig): (r: AdminSettingsResponse)
    ensures r.s3Endpoint == config.s3Endpoint && r.s3Bucket == config.s3Bucket && r.s3Region == config.s3Region
    ensures r.maxFileSize == config.maxFileSize && r.maxRequestSize == config.maxRequestSize
    ensures r.corsAllowedOrigins == Origins(config.corsAllowedOrigins)
  {
    AdminSettingsResponse(config.s3Endpoint, config.s3Bucket, config.s3Region,
      config.maxFileSize, config.maxRequestSize, Origins(config.corsAllowedOrigins))
  }
}
