/**
 * The QR scanner wrapper of `frontend/src/components/Scanner.tsx`: camera results pass a
 * duplicate filter (the same text within 1500 ms of the last accepted scan is dropped), while
 * manual entry and pasting from the clipboard go straight to the caller. Every call of `onScan`
 * is recorded, in order, in `scans`; the clock (`Date.now()`) and the clipboard are parameters.
 */
module Scanner {
  import opened Wrappers
  import Text

  /** How long, in milliseconds, a repeated text is ignored. */
  const DebounceMs: int := 1500

  /** What reading the clipboard gave: its text, or the failure with its message if it had one. */
  datatype ClipboardRead = Read(text: string) | Failed(message: Option<string>)

  /** `handleResult` passes `text` on, given the last accepted text and its time. */
  predicate Accepts(lastText: string, lastTs: int, text: Option<string>, now: int) {
    text.Some? && text.value != "" && !(text.value == lastText && now - lastTs < DebounceMs)
  }

  /** A text other than the last accepted one is always passed on, whatever the timing. */
  lemma DifferentTextAccepted(lastText: string, lastTs: int, text: string, now: int)
    requires text != "" && text != lastText
    ensures Accepts(lastText, lastTs, Some(text), now)
  {
  }

  /** A repeat of the last accepted text is passed on exactly when 1500 ms or more have gone by. */
  lemma RepeatAcceptedIffLate(lastText: string, lastTs: int, now: int)
    requires lastText != ""
    ensures Accepts(lastText, lastTs, Some(lastText), now) <==> now - lastTs >= DebounceMs
  {
  }

  /** After a reset every non-empty text is passed on. */
  lemma AcceptedAfterReset(text: Option<string>, now: int)
    ensures Accepts("", 0, text, now) <==> text.Some? && text.value != ""
  {
  }

  /** The scanner's refs and state, and the calls it has made to `onScan`. */
  class ScannerState {
    var lastText: string
    var lastTs: int
    var manual: string
    var err: Option<string>
    var scans: seq<string>

    /** The scanner never reports an empty text. */
    ghost predicate Valid()
      reads this
    {
      forall i :: 0 <= i < |scans| ==> scans[i] != ""
    }

    constructor()
      ensures Valid()
      ensures lastText == "" && lastTs == 0 && manual == "" && err == None && scans == []
    {
      lastText := "";
      lastTs := 0;
      manual := "";
      err := None;
      scans := [];
    }

    /** `handleResult(text)` at time `now`: an accepted text becomes the last one and is reported once; anything else changes nothing. */
    method HandleResult(text: Option<string>, now: int)
      requires Valid()
      modifies this
      ensures Valid()
      ensures Accepts(old(lastText), old(lastTs), text, now) ==>
        lastText == text.value && lastTs == now && scans == old(scans) + [text.value]
      ensures !Accepts(old(lastText), old(lastTs), text, now) ==>
        lastText == old(lastText) && lastTs == old(lastTs) && scans == old(scans)
      ensures manual == old(manual) && err == old(err)
    {
      if text.None? || text.value == "" {
        return;
      }
      if text.value == lastText && now - lastTs < DebounceMs {
        return;
      }
      lastText := text.value;
      lastTs := now;
      scans := scans + [text.value];
    }

    /** The "Reset last" button: the next scan is accepted whatever it is. */
    method ResetLast()
      requires Valid()
      modifies this
      ensures Valid()
      ensures lastText == "" && lastTs == 0
      ensures manual == old(manual) && err == old(err) && scans == old(scans)
    {
      lastText := "";
      lastTs := 0;
    }

    /** Typing into the manual entry field. */
    method EditManual(text: string)
      requires Valid()
      modifies this
      ensures Valid()
      ensures manual == text
      ensures lastText == old(lastText) && lastTs == old(lastTs) && err == old(err) && scans == old(scans)
    {
      manual := text;
    }

    /** `handleSubmitManual`: the trimmed entry is reported, bypassing the duplicate filter; a blank entry is ignored. */
    method SubmitManual()
      requires Valid()
      modifies this
      ensures Valid()
      ensures Text.IsBlank(manual) ==> scans == old(scans)
      ensures !Text.IsBlank(manual) ==> scans == old(scans) + [Text.Strip(manual)]
      ensures manual == old(manual) && lastText == old(lastText) && lastTs == old(lastTs) && err == old(err)
    {
      Text.StripEmptyIffBlank(manual);
      if Text.Strip(manual) == "" {
        return;
      }
      scans := scans + [Text.Strip(manual)];
    }

    /** `handlePaste`: a non-empty clipboard text fills the entry field and is reported unfiltered; a failure shows its message. */
    method Paste(clip: ClipboardRead)
      requires Valid()
      modifies this
      ensures Valid()
      ensures clip.Read? && clip.text != "" ==> manual == clip.text && scans == old(scans) + [clip.text] && err == old(err)
      ensures clip.Read? && clip.text == "" ==> manual == old(manual) && scans == old(scans) && err == old(err)
      ensures clip.Failed? ==> manual == old(manual) && scans == old(scans)
      ensures clip.Failed? ==> err == Some(if clip.message.Some? && clip.message.value != "" then clip.message.value else "Clipboard is unavailable")
      ensures lastText == old(lastText) && lastTs == old(lastTs)
    {
      match clip
      case Read(text) =>
        if text != "" {
          manual := text;
          scans := scans + [text];
        }
      case Failed(message) =>
        err := Some(if message.Some? && message.value != "" then message.value else "Clipboard is unavailable");
    }
  }

  /** Two camera results with the same text, the second within 1500 ms of the first, are reported at most once. */
  method DuplicateFrameReportedOnce(s: ScannerState, text: string, t0: int, t1: int)
    requires s.Valid() && text != "" && t0 <= t1 < t0 + DebounceMs
    modifies s
    ensures s.scans == old(s.scans) || s.scans == old(s.scans) + [text]
    ensures Accepts(old(s.lastText), old(s.lastTs), Some(text), t0) ==> s.scans == old(s.scans) + [text]
  {
    s.HandleResult(Some(text), t0);
    assert s.lastText == text;
    s.HandleResult(Some(text), t1);
  }
}
