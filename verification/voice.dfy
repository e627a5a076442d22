/** Preparing a farming answer for speech and choosing the voice it is read
    in: markdown and symbols are rewritten into words, pause and emphasis
    markers are added for some kinds of answer, long text is cut back to
    whole sentences with a closing invitation to ask for more, and the voice id
    is chosen from the language and the voice type. The speech request itself is
    a parameter. */
module Voice {
  import opened Common
  import opened Text

  /** The Devanagari full stop that ends a Hindi sentence. */
  const Danda: char := '।'

  /** Text longer than this is cut back. */
  const MaxSpeech: nat := 1000

  /** The kept sentences stay below this length before their full stop. */
  const SentenceBudget: nat := 950

  /** Appended after the kept sentences. */
  const MoreSuffix: string := " और अधिक जानकारी के लिए पूछें।"

  // ---------------------------------------------------------------------------
  // symbol rewriting

  /** The characters rewriting removes. */
  predicate Banned(c: char) {
    c == '*' || c == '#' || c == '`' || c == '₹' || c == '%' || c == '&'
  }

  /** Text with none of the removed characters and no "km". */
  predicate Spoken(s: string) {
    && (forall c :: c in s ==> !Banned(c))
    && NoPair(s, 'k', 'm')
  }

  /** A word with no removed character and no 'k' is spoken text. */
  lemma PlainWord(w: string)
    requires forall c :: c in w ==> !Banned(c) && c != 'k'
    ensures Spoken(w)
  {
    assert forall i :: 0 <= i < |w| ==> w[i] in w;
  }

  /** Markdown emphasis, headings and code marks are dropped ("**" first,
      then any single "*"). */
  function DropMarkdown(text: string): (r: string)
    ensures '*' !in r && '#' !in r && '`' !in r
  {
    var s1 := Replace(Replace(text, "**", ""), "*", "");
    ReplaceRemovesChar(Replace(text, "**", ""), '*', "");
    ReplaceRemovesChar(s1, '#', "");
    ReplaceRemovesChar(Replace(s1, "#", ""), '`', "");
    Replace(Replace(s1, "#", ""), "`", "")
  }

  /** A replacement word without a character keeps it out of text that
      lacks it. */
  lemma ReplaceKeepsOut(s: string, p: string, r: string, c: char)
    requires |p| > 0 && c !in s && c !in r
    ensures c !in Replace(s, p, r)
  {
  }

  /** The rupee sign and per cent are spelt out in Hindi. */
  function SpellMoney(s: string): (r: string)
    ensures '₹' !in r && '%' !in r
    ensures '*' !in s && '#' !in s && '`' !in s ==> '*' !in r && '#' !in r && '`' !in r
  {
    var s3 := Replace(s, "₹", "रुपये ");
    ReplaceRemovesChar(s, '₹', "रुपये ");
    ReplaceRemovesChar(s3, '%', " प्रतिशत");
    ReplaceKeepsOut(s3, "%", " प्रतिशत", '₹');
    Replace(s3, "%", " प्रतिशत")
  }

  /** Degrees Celsius are spelt out in Hindi. */
  function SpellDegrees(s: string): (r: string)
    ensures forall c :: Banned(c) && c !in s ==> c !in r
  {
    Replace(s, "°C", " डिग्री सेल्सियस")
  }

  /** "km" and "&" are spelt out in Hindi. */
  function SpellUnits(s: string): (r: string)
    ensures '&' !in r && NoPair(r, 'k', 'm')
    ensures forall c :: Banned(c) && c !in s ==> c !in r
  {
    var s6 := Replace(s, "km", " किलोमीटर");
    ReplaceRemovesPair(s, 'k', 'm', " किलोमीटर");
    ReplaceKeepsNoPair(s6, "&", " और ", 'k', 'm');
    ReplaceRemovesChar(s6, '&', " और ");
    UnitWordsPlain();
    Replace(s6, "&", " और ")
  }

  lemma UnitWordsPlain()
    ensures forall c :: c in " किलोमीटर" ==> !Banned(c)
    ensures forall c :: c in " और " ==> !Banned(c)
  {
  }

  /** The rewriting of `_optimize_text_for_speech`, in the source's order:
      markdown dropped, then symbols and units spelt out. */
  function RewriteSymbols(text: string): (r: string)
    ensures Spoken(r)
  {
    SpellUnits(SpellDegrees(SpellMoney(DropMarkdown(text))))
  }

  // ---------------------------------------------------------------------------
  // markers

  /** The speech markers: pauses after every full stop and emphasis around
      "तुरंत" for crop-health answers, pauses before "कीमत" and
      "बाज़ार" for market answers, nothing for any other kind. */
  function AddMarkers(s: string, responseType: string): (r: string)
    ensures responseType != "crop_health" && responseType != "market" ==> r == s
  {
    if responseType == "crop_health" then
      var t := Replace(s, [Danda], "। (pause) ");
      var u := Replace(t, "तुरंत", " तुरंत (emphasis) ");
      u
    else if responseType == "market" then
      var t := Replace(s, "कीमत", " (pause) कीमत");
      var u := Replace(t, "बाज़ार", " (pause) बाज़ार");
      u
    else s
  }

  /** Replacing with a spoken word keeps text spoken, as long as the word
      cannot complete or start a "km" at its edges. */
  lemma ReplaceKeepsSpoken(s: string, p: string, r: string)
    requires |p| > 0 && |r| > 0 && r[0] != 'm' && r[|r| - 1] != 'k'
    requires Spoken(s) && Spoken(r)
    ensures Spoken(Replace(s, p, r))
  {
    ReplaceKeepsNoPair(s, p, r, 'k', 'm');
  }

  /** The marker words are themselves spoken text. */
  lemma MarkerWordsSpoken()
    ensures Spoken("। (pause) ") && Spoken(" तुरंत (emphasis) ")
    ensures Spoken(" (pause) कीमत") && Spoken(" (pause) बाज़ार")
  {
    PlainWord("। (pause) ");
    PlainWord(" तुरंत (emphasis) ");
    PlainWord(" (pause) कीमत");
    PlainWord(" (pause) बाज़ार");
  }

  /** The markers bring in none of the characters rewriting removed. */
  lemma MarkersKeepSpoken(s: string, responseType: string)
    requires Spoken(s)
    ensures Spoken(AddMarkers(s, responseType))
  {
    MarkerWordsSpoken();
    if responseType == "crop_health" {
      ReplaceKeepsSpoken(s, [Danda], "। (pause) ");
      ReplaceKeepsSpoken(Replace(s, [Danda], "। (pause) "), "तुरंत", " तुरंत (emphasis) ");
    } else if responseType == "market" {
      ReplaceKeepsSpoken(s, "कीमत", " (pause) कीमत");
      ReplaceKeepsSpoken(Replace(s, "कीमत", " (pause) कीमत"), "बाज़ार", " (pause) बाज़ार");
    }
  }

  // ---------------------------------------------------------------------------
  // truncation

  /** The truncation loop: sentences are appended, each with its full
      stop, while the text so far plus the next sentence stays below the
      budget; the first sentence that does not fit ends the loop. */
  function TakeSentences(sentences: seq<string>, acc: string): (r: string)
    decreases |sentences|
  {
    if |sentences| == 0 then acc
    else if |acc + sentences[0]| < SentenceBudget then TakeSentences(sentences[1..], acc + sentences[0] + [Danda])
    else acc
  }

  /** What the loop keeps: the first k sentences, each terminated, for the
      largest k that the budget allows. */
  lemma {:induction false} TakeSentencesKeeps(sentences: seq<string>, acc: string) returns (k: nat)
    requires |acc| <= SentenceBudget
    ensures k <= |sentences|
    ensures TakeSentences(sentences, acc) == acc + JoinTerminated(sentences[..k], Danda)
    ensures |TakeSentences(sentences, acc)| <= SentenceBudget
    ensures k < |sentences| ==> |TakeSentences(sentences, acc) + sentences[k]| >= SentenceBudget
    decreases |sentences|
  {
    if |sentences| == 0 || |acc + sentences[0]| >= SentenceBudget {
      k := 0;
    } else {
      var k' := TakeSentencesKeeps(sentences[1..], acc + sentences[0] + [Danda]);
      k := k' + 1;
      assert sentences[..k][1..] == sentences[1..][..k'];
      if k < |sentences| {
        assert sentences[k] == sentences[1..][k'];
      }
    }
  }

  /** The loop never lets the kept text grow past the budget. */
  lemma {:induction false} TakeSentencesBounded(sentences: seq<string>, acc: string)
    requires |acc| <= SentenceBudget
    ensures |TakeSentences(sentences, acc)| <= SentenceBudget
    decreases |sentences|
  {
    if |sentences| > 0 && |acc + sentences[0]| < SentenceBudget {
      TakeSentencesBounded(sentences[1..], acc + sentences[0] + [Danda]);
    }
  }

  /** The length cap: text of at most 1000 characters is kept whole; longer
      text is cut back to its leading sentences and the suffix is appended. */
  function Truncate(s: string): (r: string)
    ensures |s| <= MaxSpeech ==> r == s
    ensures |s| > MaxSpeech ==> |r| <= SentenceBudget + |MoreSuffix|
  {
    if |s| <= MaxSpeech then s
    else
      var kept := TakeSentences(Split(s, Danda), "");
      TakeSentencesBounded(Split(s, Danda), "");
      kept + MoreSuffix
  }

  /** Terminating a concatenation of sentence lists terminates each list. */
  lemma {:induction false} JoinTerminatedConcat(a: seq<string>, b: seq<string>, d: char)
    ensures JoinTerminated(a + b, d) == JoinTerminated(a, d) + JoinTerminated(b, d)
    decreases |a|
  {
    if |a| == 0 {
      assert a + b == b;
    } else {
      var ab := a + b;
      assert ab[0] == a[0];
      assert ab[1..] == a[1..] + b;
      JoinTerminatedConcat(a[1..], b, d);
      calc {
        JoinTerminated(ab, d);
        ab[0] + [d] + JoinTerminated(ab[1..], d);
        a[0] + [d] + (JoinTerminated(a[1..], d) + JoinTerminated(b, d));
        (a[0] + [d] + JoinTerminated(a[1..], d)) + JoinTerminated(b, d);
        JoinTerminated(a, d) + JoinTerminated(b, d);
      }
    }
  }

  /** Where the loop stops in long text: after k whole sentences, before a
      sentence k that would not have fitted, the text with a final full stop
      being the kept sentences, sentence k and the rest. */
  lemma KeptSentencesLayout(s: string) returns (k: nat)
    requires |s| > MaxSpeech
    ensures var parts := Split(s, Danda);
            && k < |parts|
            && TakeSentences(parts, "") == JoinTerminated(parts[..k], Danda)
            && |JoinTerminated(parts[..k], Danda)| <= SentenceBudget
            && |JoinTerminated(parts[..k], Danda) + parts[k]| >= SentenceBudget
            && s + [Danda] == JoinTerminated(parts[..k], Danda) + parts[k] + [Danda]
                                + JoinTerminated(parts[k + 1..], Danda)
  {
    var parts := Split(s, Danda);
    k := TakeSentencesKeeps(parts, "");
    assert "" + JoinTerminated(parts[..k], Danda) == JoinTerminated(parts[..k], Danda);
    SplitJoin(s, Danda);
    JoinTerminatedIsJoin(parts, Danda);
    assert parts[..|parts|] == parts;
    if k == |parts| {
      // all of the text plus a final full stop is longer than the budget
      assert false;
    }
    assert parts == parts[..k] + [parts[k]] + parts[k + 1..];
    JoinTerminatedConcat(parts[..k] + [parts[k]], parts[k + 1..], Danda);
    JoinTerminatedConcat(parts[..k], [parts[k]], Danda);
    assert JoinTerminated([parts[k]], Danda) == parts[k] + [Danda];
  }

  /** Long text keeps only whole leading sentences: a prefix of the text of at
      most 950 characters that is empty or ends in a full stop, with no full
      stop between its end and position 950 (so the next sentence would not
      have fitted), followed by the suffix. */
  lemma TruncateKeepsWholeSentences(s: string) returns (m: nat)
    requires |s| > MaxSpeech
    ensures m <= SentenceBudget
    ensures Truncate(s) == s[..m] + MoreSuffix
    ensures m == 0 || s[m - 1] == Danda
    ensures Danda !in s[m..SentenceBudget]
  {
    var parts := Split(s, Danda);
    var k := KeptSentencesLayout(s);
    var kept := JoinTerminated(parts[..k], Danda);
    if k > 0 {
      JoinTerminatedIsJoin(parts[..k], Danda);
    }
    CutBeforeSentence(s, kept, parts[k], JoinTerminated(parts[k + 1..], Danda));
    m := |kept|;
  }

  /** Text laid out as kept sentences, one more sentence and the rest is cut
      before that sentence. */
  lemma CutBeforeSentence(s: string, kept: string, sentence: string, rest: string)
    requires s + [Danda] == kept + sentence + [Danda] + rest
    requires |kept| <= SentenceBudget <= |kept| + |sentence|
    requires Danda !in sentence
    ensures |kept| <= |s| && s[..|kept|] == kept
    ensures Danda !in s[|kept|..SentenceBudget]
  {
    var m := |kept|;
    ThreePieces(s + [Danda], kept, sentence, [Danda] + rest);
    SliceOfLonger(s, [Danda], 0, m);
    SliceOfLonger(s, [Danda], m, m + |sentence|);
    SliceOfSlice(s, m, m + |sentence|, SentenceBudget);
    assert forall c :: c in sentence[..SentenceBudget - m] ==> c in sentence;
  }

  lemma SliceOfLonger<T>(s: seq<T>, x: seq<T>, i: nat, j: nat)
    requires i <= j <= |s|
    ensures (s + x)[i..j] == s[i..j]
  {
  }

  lemma SliceOfSlice<T>(s: seq<T>, i: nat, j: nat, l: nat)
    requires i <= l <= j <= |s|
    ensures s[i..l] == s[i..j][..l - i]
  {
  }

  /** The pieces of a concatenation are its slices. */
  lemma ThreePieces<T>(t: seq<T>, x: seq<T>, y: seq<T>, z: seq<T>)
    requires t == x + y + z
    ensures t[..|x|] == x && t[|x|..|x| + |y|] == y
  {
  }

  /** `_optimize_text_for_speech`: rewriting, markers, truncation, then
      surrounding whitespace stripped. */
  function OptimizeForSpeech(text: string, responseType: string): (r: string)
    ensures Spoken(r)
    ensures |r| <= |AddMarkers(RewriteSymbols(text), responseType)|
  {
    var marked := AddMarkers(RewriteSymbols(text), responseType);
    assert |MoreSuffix| < 50;
    MarkersKeepSpoken(RewriteSymbols(text), responseType);
    TruncateKeepsSpoken(marked);
    StripKeepsSpoken(Truncate(marked));
    Strip(Truncate(marked))
  }

  /** Cutting back keeps a prefix and adds a suffix with none of the removed
      characters. */
  lemma TruncateKeepsSpoken(s: string)
    requires Spoken(s)
    ensures Spoken(Truncate(s))
  {
    if |s| > MaxSpeech {
      var m := TruncateKeepsWholeSentences(s);
      SpokenSlice(s, 0, m);
      SuffixSpoken();
      SpokenConcat(s[..m], MoreSuffix);
    }
  }

  lemma SuffixSpoken()
    ensures Spoken(MoreSuffix) && MoreSuffix[0] != 'm'
  {
    PlainWord(MoreSuffix);
  }

  lemma SpokenSlice(s: string, i: nat, j: nat)
    requires i <= j <= |s| && Spoken(s)
    ensures Spoken(s[i..j])
  {
    NoPairSlice(s, i, j, 'k', 'm');
    assert forall c :: c in s[i..j] ==> c in s;
  }

  lemma SpokenConcat(x: string, y: string)
    requires Spoken(x) && Spoken(y) && (|y| == 0 || y[0] != 'm')
    ensures Spoken(x + y)
  {
    NoPairConcat(x, y, 'k', 'm');
  }

  /** Stripping keeps an inner slice. */
  lemma StripKeepsSpoken(s: string)
    requires Spoken(s)
    ensures Spoken(Strip(s))
  {
    var i := StripIsSlice(s);
    NoPairSlice(s, i, i + |Strip(s)|, 'k', 'm');
    assert forall c :: c in Strip(s) ==> c in s;
  }

  /** Markers are a matter of the answer's kind: every kind other than crop
      health and market is spoken the same way. */
  lemma OnlyTwoKindsMarked(text: string, responseType: string)
    requires responseType != "crop_health" && responseType != "market"
    ensures OptimizeForSpeech(text, responseType) == OptimizeForSpeech(text, "general")
  {
  }

  /** Short text is not cut back: the result is the rewritten, marked text
      with its surrounding whitespace stripped. */
  lemma ShortTextKept(text: string, responseType: string)
    requires |AddMarkers(RewriteSymbols(text), responseType)| <= MaxSpeech
    ensures OptimizeForSpeech(text, responseType) == Strip(AddMarkers(RewriteSymbols(text), responseType))
  {
    var marked := AddMarkers(RewriteSymbols(text), responseType);
    assert Truncate(marked) == marked;
  }

  // ---------------------------------------------------------------------------
  // voices

  const HindiMaleId: string := "pMsXgVXv3BLzUgSXRplE"
  const HindiFemaleId: string := "8FsOrsZSELg9otqX9nPu"
  const EnglishMaleId: string := "pNInz6obpgDQGcFmaJgB"
  const EnglishFemaleId: string := "21m00Tcm4TlvDq8ikWAM"

  /** The voice-id table of the service. */
  const VoiceIds: map<string, string> := map[
    "hindi_male" := HindiMaleId,
    "hindi_female" := HindiFemaleId,
    "english_male" := EnglishMaleId,
    "english_female" := EnglishFemaleId]

  /** "hindi_" followed by a word names a voice exactly when the word is
      "male" or "female". */
  lemma HindiKey(word: string)
    ensures "hindi_" + word in VoiceIds <==> word == "male" || word == "female"
    ensures word == "male" ==> VoiceIds["hindi_" + word] == HindiMaleId
    ensures word == "female" ==> VoiceIds["hindi_" + word] == HindiFemaleId
  {
    var key := "hindi_" + word;
    assert key[..6] == "hindi_";
    if key == "hindi_male" {
      assert word == key[6..];
    } else if key == "hindi_female" {
      assert word == key[6..];
    } else {
      assert key[0] == 'h';
    }
  }

  /** The voice id `text_to_speech` posts to. A Hindi language code takes the
      Hindi voice of the type's last `_`-separated word (so "english_female"
      is read by the Hindi female voice), falling back to the Hindi male
      voice; any other language takes the type's own voice, falling back to
      the English male voice. */
  function SelectVoice(voiceType: string, language: string): (id: string)
    ensures id in VoiceIds.Values
    ensures StartsWith(language, "hi") ==> id == HindiMaleId || id == HindiFemaleId
    ensures StartsWith(language, "hi") ==> (id == HindiFemaleId <==> LastSegment(voiceType, '_') == "female")
    ensures !StartsWith(language, "hi") && voiceType in VoiceIds ==> id == VoiceIds[voiceType]
    ensures !StartsWith(language, "hi") && voiceType !in VoiceIds ==> id == EnglishMaleId
  {
    if StartsWith(language, "hi") then
      var key := "hindi_" + LastSegment(voiceType, '_');
      HindiKey(LastSegment(voiceType, '_'));
      if key in VoiceIds then VoiceIds[key] else VoiceIds["hindi_male"]
    else if voiceType in VoiceIds then VoiceIds[voiceType]
    else VoiceIds["english_male"]
  }

  /** `generate_voice_for_farming_response`: weather answers take the female
      voice type, every other kind the male one. */
  function VoiceTypeFor(responseType: string): (voiceType: string)
    ensures voiceType in VoiceIds
    ensures voiceType == "hindi_female" <==> responseType == "weather"
  {
    if responseType == "weather" then "hindi_female" else "hindi_male"
  }

  /** The last words of the two voice types of farming answers. */
  lemma VoiceTypeSegments()
    ensures LastSegment("hindi_female", '_') == "female"
    ensures LastSegment("hindi_male", '_') == "male"
  {
    LastSegmentOfPair("hindi", "female", '_');
    LastSegmentOfPair("hindi", "male", '_');
    assert "hindi" + ['_'] + "female" == "hindi_female";
    assert "hindi" + ['_'] + "male" == "hindi_male";
  }

  /** Whatever the language, weather answers are read by the Hindi female
      voice and all others by the Hindi male voice. */
  lemma FarmingVoice(responseType: string, language: string)
    ensures SelectVoice(VoiceTypeFor(responseType), language)
              == (if responseType == "weather" then HindiFemaleId else HindiMaleId)
  {
    VoiceTypeSegments();
    HindiKey("female");
    HindiKey("male");
  }

  // ---------------------------------------------------------------------------
  // the speech request

  /** The reply of the speech API: its status code and, on 200, the audio. */
  datatype Reply = Reply(status: int, audio: seq<bv8>)

  datatype SpeechFailure = KeyMissing | RequestFailed(status: int)

  datatype Speech =
    | SpeechError(failure: SpeechFailure)
    | SpeechOk(audio: seq<bv8>, voiceId: string, text: string, language: string, sizeBytes: nat)

  /** `text_to_speech`: without an API key nothing is requested; otherwise the
      text is posted to the selected voice and a 200 reply carries the audio.
      `post` stands for the HTTP request, given the voice id and the text. */
  function TextToSpeech(text: string, voiceType: string, language: string, apiKey: string,
                        post: (string, string) -> Reply): (r: Speech)
    ensures apiKey == "" ==> r == SpeechError(KeyMissing)
    ensures apiKey != "" && post(SelectVoice(voiceType, language), text).status != 200 ==>
              r == SpeechError(RequestFailed(post(SelectVoice(voiceType, language), text).status))
    ensures r.SpeechOk? ==>
              && apiKey != ""
              && r.voiceId == SelectVoice(voiceType, language)
              && post(r.voiceId, text) == Reply(200, r.audio)
              && r.text == text && r.language == language && r.sizeBytes == |r.audio|
    ensures apiKey != "" && post(SelectVoice(voiceType, language), text).status == 200 ==>
              r.SpeechOk? && r.audio == post(SelectVoice(voiceType, language), text).audio
  {
    if apiKey == "" then SpeechError(KeyMissing)
    else
      var voiceId := SelectVoice(voiceType, language);
      var reply := post(voiceId, text);
      if reply.status == 200 then SpeechOk(reply.audio, voiceId, text, language, |reply.audio|)
      else SpeechError(RequestFailed(reply.status))
  }

  /** A farming answer spoken: the result of the request plus, on success,
      the answer's kind and the text actually spoken. */
  datatype FarmingSpeech = FarmingSpeech(speech: Speech, responseType: Option<string>, optimizedText: Option<string>)

  /** `generate_voice_for_farming_response`: the optimised text is spoken in
      the voice the answer's kind calls for. */
  function SpeakFarmingAnswer(text: string, language: string, responseType: string, apiKey: string,
                              post: (string, string) -> Reply): (r: FarmingSpeech)
    ensures r.speech.SpeechOk? <==> r.responseType.Some?
    ensures r.speech.SpeechOk? ==>
              && r.responseType == Some(responseType)
              && r.optimizedText == Some(r.speech.text)
              && r.speech.text == OptimizeForSpeech(text, responseType)
              && r.speech.voiceId == (if responseType == "weather" then HindiFemaleId else HindiMaleId)
    ensures apiKey == "" ==> r.speech == SpeechError(KeyMissing)
    ensures r.speech == TextToSpeech(OptimizeForSpeech(text, responseType), VoiceTypeFor(responseType),
                                     language, apiKey, post)
  {
    var spoken := OptimizeForSpeech(text, responseType);
    FarmingVoice(responseType, language);
    var speech := TextToSpeech(spoken, VoiceTypeFor(responseType), language, apiKey, post);
    if speech.SpeechOk? then FarmingSpeech(speech, Some(responseType), Some(spoken))
    else FarmingSpeech(speech, None, None)
  }
}
