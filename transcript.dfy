/** What both transcript endpoints do with a caption track once they have
    one: join the fragments into prose and name its language. */
module Transcript {
  import opened Wrappers
  import opened JsString

  /** One caption fragment; a track is a sequence of them in temporal order. */
  datatype Fragment = Fragment(text: string)

  const Unknown: string := "Unknown"

  /** The detector's "undetermined" code. */
  const Undetermined: string := "und"

  /** Texts of at most this many UTF-16 code units are not given to the detector. */
  const MinDetectLength: nat := 20

  /** The `minLength` option passed to the detector. */
  const DetectorMinLength: nat := 10

  /** `franc(text, { minLength })`: an ISO 639-3 code, "und" when unsure. */
  type Detector = (string, nat) -> string

  /** `langs.where("3", code)?.name`: `None` when the code is unknown. */
  type NameLookup = string -> Option<string>

  function Texts(fragments: seq<Fragment>): (r: seq<string>)
    ensures |r| == |fragments| && forall i :: 0 <= i < |r| ==> r[i] == fragments[i].text
  {
    seq(|fragments|, i requires 0 <= i < |fragments| => fragments[i].text)
  }

  /** `fragments.map(i => i.text).join(" ").trim() || null`. */
  function Normalize(fragments: seq<Fragment>): (r: Option<string>)
    ensures r.Some? ==> r.value != [] && Trimmed(r.value)
  {
    var t := Trim(Join(Texts(fragments), ' '));
    if t == [] then None else Some(t)
  }

  /** A code that the name lookup is asked about: truthy and not "und". */
  predicate IsDeterminedCode(code: string)
  {
    code != [] && code != Undetermined
  }

  /** The transcript is long enough to be given to the detector. */
  predicate LongEnough(transcript: Option<string>)
  {
    transcript.Some? && Utf16Length(transcript.value) > MinDetectLength
  }

  /** The code the detector gives a transcript, called with minLength 10. */
  function CodeOf(transcript: Option<string>, detect: Detector): string
  {
    detect(transcript.GetOr([]), DetectorMinLength)
  }

  /** The language gate: "Unknown" unless the transcript is longer than 20
      UTF-16 code units, the detector determines a code, and the code has a name. */
  function DetectLanguage(transcript: Option<string>, detect: Detector, lookup: NameLookup): (r: string)
    ensures !LongEnough(transcript) ==> r == Unknown
    ensures LongEnough(transcript) && !IsDeterminedCode(CodeOf(transcript, detect)) ==> r == Unknown
    ensures LongEnough(transcript) && lookup(CodeOf(transcript, detect)).None? ==> r == Unknown
    ensures r != Unknown ==>
      (LongEnough(transcript) && IsDeterminedCode(CodeOf(transcript, detect)) &&
       lookup(CodeOf(transcript, detect)) == Some(r))
    ensures (LongEnough(transcript) && IsDeterminedCode(CodeOf(transcript, detect)) &&
             lookup(CodeOf(transcript, detect)).Some?) ==>
      r == lookup(CodeOf(transcript, detect)).value
  {
    var language := Unknown;
    if transcript.Some? && Utf16Length(transcript.value) > MinDetectLength then
      var code := detect(transcript.value, DetectorMinLength);
      if IsDeterminedCode(code) then
        match lookup(code)
        case Some(name) => name
        case None => language
      else language
    else language
  }

  /** The gate counts UTF-16 code units: twenty characters of which the
      last lies outside the Basic Multilingual Plane make 21 units, enough
      to reach the detector. */
  lemma AstralCharCountsTwice(t: string)
    requires |t| == 20 && t[19] >= '\U{10000}'
    requires forall i :: 0 <= i < 19 ==> t[i] < '\U{10000}'
    ensures LongEnough(Some(t))
  {
    assert t == t[..19] + [t[19]];
    Utf16LengthConcat(t[..19], [t[19]]);
    assert Utf16Length(t[..19]) == 19;
  }

  /** Joining with spaces gives only whitespace exactly when every piece is
      only whitespace. */
  lemma {:induction false} JoinAllWhitespace(xs: seq<string>)
    ensures AllWhitespace(Join(xs, ' ')) <==> forall i :: 0 <= i < |xs| ==> AllWhitespace(xs[i])
  {
    if |xs| > 1 {
      JoinAllWhitespace(xs[1..]);
      var j := Join(xs, ' ');
      assert j == xs[0] + [' '] + Join(xs[1..], ' ');
      if AllWhitespace(j) {
        assert AllWhitespace(xs[0]) by {
          forall k | 0 <= k < |xs[0]| ensures IsWhitespace(xs[0][k]) { assert j[k] == xs[0][k]; }
        }
        assert AllWhitespace(Join(xs[1..], ' ')) by {
          var t := Join(xs[1..], ' ');
          forall k | 0 <= k < |t| ensures IsWhitespace(t[k]) { assert j[|xs[0]| + 1 + k] == t[k]; }
        }
        forall i | 0 <= i < |xs| ensures AllWhitespace(xs[i]) {
          if i > 0 { assert xs[i] == xs[1..][i - 1]; }
        }
      }
      if forall i :: 0 <= i < |xs| ==> AllWhitespace(xs[i]) {
        assert forall i :: 0 <= i < |xs[1..]| ==> AllWhitespace(xs[1..][i]) by {
          forall i | 0 <= i < |xs[1..]| ensures AllWhitespace(xs[1..][i]) { assert xs[1..][i] == xs[i + 1]; }
        }
        assert AllWhitespace(xs[0]);
      }
    }
  }

  /** The transcript is null exactly when every fragment is blank. */
  lemma NormalizeNoneIff(fragments: seq<Fragment>)
    ensures Normalize(fragments).None? <==>
      forall i :: 0 <= i < |fragments| ==> AllWhitespace(fragments[i].text)
  {
    var xs := Texts(fragments);
    JoinAllWhitespace(xs);
    assert (forall i :: 0 <= i < |xs| ==> AllWhitespace(xs[i])) <==>
      (forall i :: 0 <= i < |fragments| ==> AllWhitespace(fragments[i].text));
  }

  /** Join starts with the first piece and ends with the last one. */
  lemma {:induction false} JoinEnds(xs: seq<string>)
    requires |xs| >= 1 && xs[0] != [] && xs[|xs| - 1] != []
    ensures var j := Join(xs, ' ');
      |j| >= 1 && j[0] == xs[0][0] && j[|j| - 1] == xs[|xs| - 1][|xs[|xs| - 1]| - 1]
  {
    JoinLast(xs);
  }

  lemma {:induction false} JoinLast(xs: seq<string>)
    requires |xs| >= 1 && xs[|xs| - 1] != []
    ensures var j := Join(xs, ' ');
      |j| >= 1 && j[|j| - 1] == xs[|xs| - 1][|xs[|xs| - 1]| - 1]
  {
    if |xs| > 1 {
      JoinLast(xs[1..]);
    }
  }

  /** When the fragments themselves carry no padding, the transcript is
      their texts, in order, separated by single spaces. */
  lemma NormalizeJoinsInOrder(fragments: seq<Fragment>)
    requires |fragments| >= 1
    requires forall i :: 0 <= i < |fragments| ==> fragments[i].text != [] && Trimmed(fragments[i].text)
    ensures Normalize(fragments) == Some(Join(Texts(fragments), ' '))
  {
    var xs := Texts(fragments);
    JoinEnds(xs);
    TrimOfTrimmed(Join(xs, ' '));
  }

  lemma HelloWorld()
    ensures Normalize([Fragment("Hello"), Fragment("world")]) == Some("Hello world")
  {
    var fs := [Fragment("Hello"), Fragment("world")];
    assert Texts(fs) == ["Hello", "world"];
    assert Join(["Hello", "world"], ' ') == "Hello world";
    NormalizeJoinsInOrder(fs);
  }
}
