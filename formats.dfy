/**
 * The per-format side of a session media, seen from the media: the map from
 * payload type to format built at construction, and the search for the format
 * whose RTCP receiver knows a given sender SSRC.
 */
module Formats {
  import opened Packets

  /** One format of the negotiated media description. */
  datatype MediaFormat = MediaFormat(payloadType: uint8, codec: string)

  /** The negotiated media description. */
  datatype Media = Media(formats: seq<MediaFormat>)

  /** A per-format component: its description and the sender SSRC that its
      RTCP receiver has learned so far (`rtcpReceiver.SenderSSRC()`). */
  datatype Format = Format(desc: MediaFormat, senderSSRC: Option<uint32>)

  /** `newServerSessionFormat`: a receiver that has not yet learned a sender. */
  function NewFormat(desc: MediaFormat): Format
  {
    Format(desc, None)
  }

  /** The map filled by the construction loop: one entry per format of the media,
      keyed by its payload type; a later format with the same type replaces an earlier one. */
  function FormatsOf(fs: seq<MediaFormat>): map<uint8, Format>
    decreases |fs|
  {
    if fs == [] then map[]
    else
      var last := fs[|fs| - 1];
      FormatsOf(fs[..|fs| - 1])[last.payloadType := NewFormat(last)]
  }

  /** The payload types of a format list. */
  function PayloadTypes(fs: seq<MediaFormat>): set<uint8>
  {
    set f | f in fs :: f.payloadType
  }

  /** One entry per payload type of the media, and no other. */
  lemma {:induction false} FormatsOfKeys(fs: seq<MediaFormat>)
    ensures FormatsOf(fs).Keys == PayloadTypes(fs)
    decreases |fs|
  {
    if fs != [] {
      var init, last := fs[..|fs| - 1], fs[|fs| - 1];
      FormatsOfKeys(init);
      assert fs == init + [last];
      assert PayloadTypes(fs) == PayloadTypes(init) + {last.payloadType};
    }
  }

  /** Each entry is a fresh format of the media, filed under its own payload type. */
  lemma {:induction false} FormatsOfEntries(fs: seq<MediaFormat>)
    ensures forall pt | pt in FormatsOf(fs) ::
              FormatsOf(fs)[pt].desc in fs && FormatsOf(fs)[pt].desc.payloadType == pt &&
              FormatsOf(fs)[pt].senderSSRC == None
    decreases |fs|
  {
    if fs != [] {
      var init := fs[..|fs| - 1];
      FormatsOfEntries(init);
      assert forall f | f in init :: f in fs;
    }
  }

  /** When a payload type occurs several times, the last format with it wins. */
  lemma {:induction false} FormatsOfLastWins(fs: seq<MediaFormat>, i: nat)
    requires i < |fs|
    requires forall j | i < j < |fs| :: fs[j].payloadType != fs[i].payloadType
    ensures fs[i].payloadType in FormatsOf(fs) && FormatsOf(fs)[fs[i].payloadType].desc == fs[i]
    decreases |fs|
  {
    var init := fs[..|fs| - 1];
    if i < |fs| - 1 {
      forall j | i < j < |init| ensures init[j].payloadType != init[i].payloadType {
        assert init[j] == fs[j];
      }
      FormatsOfLastWins(init, i);
    }
  }

  /** Some format's receiver reports `ssrc` as its sender. */
  ghost predicate HasSender(formats: map<uint8, Format>, ssrc: uint32)
  {
    exists pt :: pt in formats && formats[pt].senderSSRC == Some(ssrc)
  }

  /** What `findFormatWithSSRC` may answer: a format of the media whose receiver
      reports `ssrc`, or nothing exactly when no format does. Go's map order decides
      which one is found first when several match, so any matching one is allowed. */
  ghost predicate IsFindResult(formats: map<uint8, Format>, ssrc: uint32, r: Option<uint8>)
  {
    match r
    case Some(pt) => pt in formats && formats[pt].senderSSRC == Some(ssrc)
    case None => !HasSender(formats, ssrc)
  }
}
