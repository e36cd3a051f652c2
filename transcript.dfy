/**
 * Assembly of the text a finished job carries: with a diarization pipeline,
 * one line per speaker turn, each tagged with the turn's speaker and holding
 * the whole-file transcript (the application does not transcribe per turn);
 * without one, the transcript as the speech model returned it.
 */
module Transcript {
  import opened Wrappers
  import opened Strings

  /** The line written for one diarization turn: `f"[{speaker}] {text.strip()}"`. */
  function SpeakerLine(speaker: string, text: string): string {
    "[" + speaker + "] " + Strip(text)
  }

  /** The lines for the turns, in turn order, as the loop appends them. */
  function SpeakerLines(speakers: seq<string>, text: string): (lines: seq<string>)
    ensures |lines| == |speakers|
  {
    if speakers == [] then []
    else SpeakerLines(speakers[..|speakers| - 1], text) + [SpeakerLine(speakers[|speakers| - 1], text)]
  }

  /** Line k belongs to turn k. */
  lemma {:induction false} SpeakerLinesAt(speakers: seq<string>, text: string, k: nat)
    requires k < |speakers|
    ensures SpeakerLines(speakers, text)[k] == "[" + speakers[k] + "] " + Strip(text)
  {
    if k < |speakers| - 1 {
      SpeakerLinesAt(speakers[..|speakers| - 1], text, k);
    }
  }

  /** The diarized text; `speakers` is None when no pipeline is configured,
      otherwise the speaker label of each turn in order. */
  function DiarizedText(speakers: Option<seq<string>>, text: string): string {
    match speakers
    case None => text
    case Some(labels) => Join(SpeakerLines(labels, text), "\n")
  }

  /** The loop over the turns that appends one line per turn. */
  method CollectSegments(speakers: seq<string>, text: string) returns (segments: seq<string>)
    ensures segments == SpeakerLines(speakers, text)
  {
    segments := [];
    var i := 0;
    while i < |speakers|
      invariant 0 <= i <= |speakers|
      invariant segments == SpeakerLines(speakers[..i], text)
    {
      assert speakers[..i + 1][..i] == speakers[..i];
      assert SpeakerLines(speakers[..i + 1], text) == SpeakerLines(speakers[..i], text) + [SpeakerLine(speakers[i], text)];
      segments := segments + [SpeakerLine(speakers[i], text)];
      i := i + 1;
    }
    assert speakers[..i] == speakers;
  }

  /** Without a pipeline the transcript is kept verbatim, not even stripped. */
  lemma NoPipelineKeepsTranscript(text: string)
    ensures DiarizedText(None, text) == text
  {
  }

  /** A pipeline that finds no turn gives the empty text. */
  lemma NoTurnsGiveEmptyText(text: string)
    ensures DiarizedText(Some([]), text) == ""
  {
  }

  /** With a pipeline and at least one turn, splitting the diarized text at
      its line breaks gives back one line per turn, in turn order, provided
      no speaker label and no stripped transcript holds a line break of its
      own. */
  lemma {:induction false} DiarizedTextLines(speakers: seq<string>, text: string)
    requires |speakers| >= 1
    requires forall k :: 0 <= k < |speakers| ==> '\n' !in speakers[k]
    requires '\n' !in Strip(text)
    ensures SplitOn(DiarizedText(Some(speakers), text), '\n') == SpeakerLines(speakers, text)
  {
    var lines := SpeakerLines(speakers, text);
    forall k | 0 <= k < |lines| ensures '\n' !in lines[k] {
      SpeakerLinesAt(speakers, text, k);
    }
    SplitJoin(lines, '\n');
  }

  /** Two turns, say by SPEAKER_00 and SPEAKER_01, give exactly two lines,
      each tagged with its own speaker and each holding the whole stripped
      transcript. */
  lemma TwoSpeakerTranscript(first: string, second: string, text: string)
    requires '\n' !in first && '\n' !in second && '\n' !in Strip(text)
    ensures SplitOn(DiarizedText(Some([first, second]), text), '\n')
              == ["[" + first + "] " + Strip(text), "[" + second + "] " + Strip(text)]
  {
    var speakers := [first, second];
    DiarizedTextLines(speakers, text);
    SpeakerLinesAt(speakers, text, 0);
    SpeakerLinesAt(speakers, text, 1);
  }
}
