/** Codec negotiation: which formats of an answer survive against an offer, and in what
    order (section 6.1 of RFC 3264). */
module Negotiate {
  import opened Primitives
  import opened SdpText

  type Codec = nat

  /** The codec library's two conversions. */
  datatype Codecs = Codecs(byName: map<string, Codec>, byPayloadType: map<nat, Codec>)

  datatype MediaKind = Audio | Video | Application
  datatype Attribute = Attribute(key: string, value: Option<string>)
  datatype Media = Media(kind: MediaKind, formats: seq<string>, attributes: seq<Attribute>)
  datatype RtpMap = RtpMap(payloadType: nat, codec: Codec, clock: nat, channels: nat)

  function ParseRtpmap(codecs: Codecs, value: string): Option<RtpMap> {
    var words := Split(value, ' ');
    if |words| != 2 then None
    else
      var parts := Split(words[1], '/');
      var payloadType := ParseU8(words[0]);
      if payloadType.None? || |parts| < 2 || parts[0] !in codecs.byName then None
      else
        match ParseUnsigned(parts[1], U32)
        case None => None
        case Some(clock) =>
          Some(RtpMap(payloadType.value, codecs.byName[parts[0]], clock, if parts[2..] == ["2"] then 2 else 1))
  }

  function AttributeRtpmap(codecs: Codecs, a: Attribute): Option<RtpMap> {
    if a.key == "rtpmap" && a.value.Some? then ParseRtpmap(codecs, a.value.value) else None
  }

  function RtpMaps(codecs: Codecs, attributes: seq<Attribute>): seq<RtpMap> {
    if attributes == [] then []
    else
      RtpMaps(codecs, attributes[..|attributes| - 1])
      + match AttributeRtpmap(codecs, attributes[|attributes| - 1])
        case Some(m) => [m]
        case None => []
  }

  // ---------- the offer ----------

  function FindRtpmap(maps: seq<RtpMap>, payloadType: nat): Option<Codec> {
    if maps == [] then None
    else if maps[0].payloadType == payloadType then Some(maps[0].codec)
    else FindRtpmap(maps[1..], payloadType)
  }

  /** Dynamic payload types take the first rtpmap seen so far, all others their static codec. */
  function OfferCodec(codecs: Codecs, maps: seq<RtpMap>, format: string): seq<Codec> {
    match ParseU8(format)
    case None => []
    case Some(pt) =>
      if 96 <= pt <= 127 then (match FindRtpmap(maps, pt) case Some(c) => [c] case None => [])
      else if pt in codecs.byPayloadType then [codecs.byPayloadType[pt]] else []
  }

  function FormatCodecs(codecs: Codecs, maps: seq<RtpMap>, formats: seq<string>): seq<Codec> {
    if formats == [] then []
    else FormatCodecs(codecs, maps, formats[..|formats| - 1]) + OfferCodec(codecs, maps, formats[|formats| - 1])
  }

  /** `rtp_map` and `codecs` of the selected media, over all sections of that kind in order. */
  datatype PeerMedia = PeerMedia(maps: seq<RtpMap>, codecs: seq<Codec>)

  function SelectedMedia(codecs: Codecs, sections: seq<Media>, kind: MediaKind): PeerMedia {
    if sections == [] then PeerMedia([], [])
    else
      var n := |sections| - 1;
      var before := SelectedMedia(codecs, sections[..n], kind);
      if sections[n].kind != kind then before
      else
        var maps := before.maps + RtpMaps(codecs, sections[n].attributes);
        PeerMedia(maps, before.codecs + FormatCodecs(codecs, maps, sections[n].formats))
  }

  method SelectPeerMedia(codecs: Codecs, sections: seq<Media>, kind: MediaKind) returns (peer: PeerMedia)
    ensures peer == SelectedMedia(codecs, sections, kind)
  {
    peer := PeerMedia([], []);
    for i := 0 to |sections|
      invariant peer == SelectedMedia(codecs, sections[..i], kind)
    {
      assert sections[..i + 1][..i] == sections[..i];
      if sections[i].kind == kind {
        peer := ReadSection(codecs, peer, sections[i]);
      }
    }
    assert sections[..|sections|] == sections;
  }

  method ReadSection(codecs: Codecs, before: PeerMedia, section: Media) returns (peer: PeerMedia)
    ensures var maps := before.maps + RtpMaps(codecs, section.attributes);
            peer == PeerMedia(maps, before.codecs + FormatCodecs(codecs, maps, section.formats))
  {
    var added := ReadRtpmaps(codecs, section.attributes);
    var maps := before.maps + added;
    var list := ReadFormats(codecs, maps, section.formats);
    peer := PeerMedia(maps, before.codecs + list);
  }

  method ReadRtpmaps(codecs: Codecs, attributes: seq<Attribute>) returns (maps: seq<RtpMap>)
    ensures maps == RtpMaps(codecs, attributes)
  {
    maps := [];
    for k := 0 to |attributes|
      invariant maps == RtpMaps(codecs, attributes[..k])
    {
      assert attributes[..k + 1][..k] == attributes[..k];
      var parsed := AttributeRtpmap(codecs, attributes[k]);
      if parsed.Some? {
        maps := maps + [parsed.value];
      }
    }
    assert attributes[..|attributes|] == attributes;
  }

  method ReadFormats(codecs: Codecs, maps: seq<RtpMap>, formats: seq<string>) returns (list: seq<Codec>)
    ensures list == FormatCodecs(codecs, maps, formats)
  {
    list := [];
    for k := 0 to |formats|
      invariant list == FormatCodecs(codecs, maps, formats[..k])
    {
      assert formats[..k + 1][..k] == formats[..k];
      list := list + OfferCodec(codecs, maps, formats[k]);
    }
    assert formats[..|formats|] == formats;
  }

  // ---------- the answer ----------

  /** The answer's own payload types; a later rtpmap replaces an earlier one. */
  function AnswerMap(codecs: Codecs, attributes: seq<Attribute>): map<nat, Codec> {
    if attributes == [] then map[]
    else
      var before := AnswerMap(codecs, attributes[..|attributes| - 1]);
      match AttributeRtpmap(codecs, attributes[|attributes| - 1])
      case Some(m) => before[m.payloadType := m.codec]
      case None => before
  }

  function AnswerCodec(codecs: Codecs, own: map<nat, Codec>, format: string): Option<Codec> {
    match ParseU8(format)
    case None => None
    case Some(pt) =>
      if pt in own then Some(own[pt])
      else if pt in codecs.byPayloadType then Some(codecs.byPayloadType[pt])
      else None
  }

  function FirstIndex<T(==)>(s: seq<T>, x: T): (i: nat)
    requires x in s
    ensures i < |s| && s[i] == x && x !in s[..i]
  {
    if s[0] == x then 0
    else
      assert forall k :: 0 < k < |s| ==> s[k] == s[1..][k - 1];
      var i := FirstIndex(s[1..], x);
      assert s[..i + 1] == [s[0]] + s[1..][..i];
      i + 1
  }

  /** A format is kept when its codec is one the offer has. */
  predicate Kept(codecs: Codecs, own: map<nat, Codec>, offer: seq<Codec>, formats: seq<string>, f: string) {
    f in formats && AnswerCodec(codecs, own, f).Some? && AnswerCodec(codecs, own, f).value in offer
  }

  /** Earlier codec in the offer first, then earlier in the answer. */
  predicate Before(codecs: Codecs, own: map<nat, Codec>, offer: seq<Codec>, formats: seq<string>, f: string, g: string)
    requires Kept(codecs, own, offer, formats, f) && Kept(codecs, own, offer, formats, g)
  {
    var i := FirstIndex(offer, AnswerCodec(codecs, own, f).value);
    var j := FirstIndex(offer, AnswerCodec(codecs, own, g).value);
    i < j || (i == j && FirstIndex(formats, f) < FirstIndex(formats, g))
  }

  /** What an intersected format list must be. */
  predicate IsIntersection(codecs: Codecs, own: map<nat, Codec>, offer: seq<Codec>, formats: seq<string>,
                           r: seq<string>) {
    && (forall f :: f in r ==> Kept(codecs, own, offer, formats, f))
    && (forall f :: f in formats && Kept(codecs, own, offer, formats, f) ==> f in r)
    && (forall i, j :: 0 <= i < j < |r| ==>
          r[i] in r && r[j] in r && Before(codecs, own, offer, formats, r[i], r[j]))
  }

  predicate NamesPayloadType(a: Attribute) {
    a.key == "rtpmap" || a.key == "fmtp" || a.key == "rtcp-fb"
  }

  predicate Survives(a: Attribute, formats: seq<string>) {
    NamesPayloadType(a) ==> a.value.Some? && FirstWord(a.value.value).Some? && FirstWord(a.value.value).value in formats
  }

  function Retain(attributes: seq<Attribute>, formats: seq<string>): seq<Attribute> {
    if attributes == [] then []
    else
      var n := |attributes| - 1;
      var before := Retain(attributes[..n], formats);
      if Survives(attributes[n], formats) then before + [attributes[n]] else before
  }

  /** What intersecting does to one section of an answer. */
  predicate Intersected(codecs: Codecs, offer: seq<Codec>, m: Media, after: Media) {
    if m.kind != Audio then after == m
    else
      && after.kind == Audio
      && IsIntersection(codecs, AnswerMap(codecs, m.attributes), offer, m.formats, after.formats)
      && after.attributes == Retain(m.attributes, after.formats)
  }

  /** Kept, and reached before format k is compared with codec i of the offer. */
  predicate Reached(codecs: Codecs, own: map<nat, Codec>, offer: seq<Codec>, formats: seq<string>,
                    f: string, i: nat, k: nat) {
    && Kept(codecs, own, offer, formats, f)
    && var at := FirstIndex(offer, AnswerCodec(codecs, own, f).value);
       at < i || (at == i && FirstIndex(formats, f) < k)
  }

  /** The list as it stands when format k is about to be compared with codec i. */
  predicate Partial(codecs: Codecs, own: map<nat, Codec>, offer: seq<Codec>, formats: seq<string>,
                    r: seq<string>, i: nat, k: nat) {
    && (forall f :: f in r ==> Reached(codecs, own, offer, formats, f, i, k))
    && (forall f :: f in formats && Reached(codecs, own, offer, formats, f, i, k) ==> f in r)
    && (forall a, b :: 0 <= a < b < |r| ==>
          r[a] in r && r[b] in r && Before(codecs, own, offer, formats, r[a], r[b]))
  }

  lemma FirstIndexLeast<T>(s: seq<T>, k: nat)
    requires k < |s|
    ensures FirstIndex(s, s[k]) <= k
  {
    var i := FirstIndex(s, s[k]);
    assert forall q :: 0 <= q < i ==> s[q] == s[..i][q];
  }

  /** One comparison of the nested loops. */
  lemma PartialStep(codecs: Codecs, own: map<nat, Codec>, offer: seq<Codec>, formats: seq<string>,
                    r: seq<string>, i: nat, k: nat)
    requires i < |offer| && k < |formats| && Partial(codecs, own, offer, formats, r, i, k)
    ensures var f := formats[k];
            var s := if AnswerCodec(codecs, own, f) == Some(offer[i]) && f !in r then r + [f] else r;
            Partial(codecs, own, offer, formats, s, i, k + 1)
  {
    forall g ensures Reached(codecs, own, offer, formats, g, i, k + 1)
                 <==> Reached(codecs, own, offer, formats, g, i, k)
                      || (g == formats[k] && AnswerCodec(codecs, own, g) == Some(offer[i])) {
      ReachedNext(codecs, own, offer, formats, g, i, k);
    }
    if AnswerCodec(codecs, own, formats[k]) == Some(offer[i]) && formats[k] !in r {
      PartialGrows(codecs, own, offer, formats, r, i, k);
    }
  }

  lemma PartialGrows(codecs: Codecs, own: map<nat, Codec>, offer: seq<Codec>, formats: seq<string>,
                     r: seq<string>, i: nat, k: nat)
    requires i < |offer| && k < |formats| && Partial(codecs, own, offer, formats, r, i, k)
    requires AnswerCodec(codecs, own, formats[k]) == Some(offer[i]) && formats[k] !in r
    ensures Partial(codecs, own, offer, formats, r + [formats[k]], i, k + 1)
  {
    forall g ensures Reached(codecs, own, offer, formats, g, i, k + 1)
                 <==> Reached(codecs, own, offer, formats, g, i, k) || g == formats[k] {
      ReachedNext(codecs, own, offer, formats, g, i, k);
    }
    assert forall g :: g in r + [formats[k]] <==> g in r || g == formats[k];
    LastIsLatest(codecs, own, offer, formats, r, i, k);
  }

  /** Comparing format k with codec i reaches just that format, if it has that codec. */
  lemma ReachedNext(codecs: Codecs, own: map<nat, Codec>, offer: seq<Codec>, formats: seq<string>,
                    g: string, i: nat, k: nat)
    requires i < |offer| && k < |formats|
    ensures Reached(codecs, own, offer, formats, g, i, k + 1)
       <==> Reached(codecs, own, offer, formats, g, i, k)
            || (g == formats[k] && AnswerCodec(codecs, own, g) == Some(offer[i]))
  {
    FirstIndexLeast(formats, k);
    FirstIndexLeast(offer, i);
  }

  /** A format added now comes after all that are listed. */
  lemma LastIsLatest(codecs: Codecs, own: map<nat, Codec>, offer: seq<Codec>, formats: seq<string>,
                     r: seq<string>, i: nat, k: nat)
    requires i < |offer| && k < |formats| && Partial(codecs, own, offer, formats, r, i, k)
    requires AnswerCodec(codecs, own, formats[k]) == Some(offer[i]) && formats[k] !in r
    ensures var s := r + [formats[k]];
            forall a, b :: 0 <= a < b < |s| ==>
              s[a] in s && s[b] in s
              && Kept(codecs, own, offer, formats, s[a]) && Kept(codecs, own, offer, formats, s[b])
              && Before(codecs, own, offer, formats, s[a], s[b])
  {
    FirstIndexLeast(formats, k);
    FirstIndexLeast(offer, i);
    assert !Reached(codecs, own, offer, formats, formats[k], i, k);
    assert forall a :: 0 <= a < |r| ==> Reached(codecs, own, offer, formats, r[a], i, k);
  }

  lemma PartialRow(codecs: Codecs, own: map<nat, Codec>, offer: seq<Codec>, formats: seq<string>,
                   r: seq<string>, i: nat)
    requires Partial(codecs, own, offer, formats, r, i, |formats|)
    ensures Partial(codecs, own, offer, formats, r, i + 1, 0)
  {
    forall f ensures Reached(codecs, own, offer, formats, f, i, |formats|)
                 == Reached(codecs, own, offer, formats, f, i + 1, 0) {
    }
  }

  method MatchCodec(codecs: Codecs, own: map<nat, Codec>, offer: seq<Codec>, formats: seq<string>,
                    before: seq<string>, i: nat)
    returns (r: seq<string>)
    requires i < |offer| && Partial(codecs, own, offer, formats, before, i, 0)
    ensures Partial(codecs, own, offer, formats, r, i, |formats|)
  {
    r := before;
    for k := 0 to |formats|
      invariant Partial(codecs, own, offer, formats, r, i, k)
    {
      PartialStep(codecs, own, offer, formats, r, i, k);
      if AnswerCodec(codecs, own, formats[k]) == Some(offer[i]) && formats[k] !in r {
        r := r + [formats[k]];
      }
    }
  }

  method IntersectFormats(codecs: Codecs, own: map<nat, Codec>, offer: seq<Codec>, formats: seq<string>)
    returns (r: seq<string>)
    ensures IsIntersection(codecs, own, offer, formats, r)
  {
    r := [];
    for i := 0 to |offer|
      invariant Partial(codecs, own, offer, formats, r, i, 0)
    {
      r := MatchCodec(codecs, own, offer, formats, r, i);
      PartialRow(codecs, own, offer, formats, r, i);
    }
    forall f | Kept(codecs, own, offer, formats, f) ensures Reached(codecs, own, offer, formats, f, |offer|, 0) {
    }
  }

  method ReadAnswerMap(codecs: Codecs, attributes: seq<Attribute>) returns (own: map<nat, Codec>)
    ensures own == AnswerMap(codecs, attributes)
  {
    own := map[];
    for k := 0 to |attributes|
      invariant own == AnswerMap(codecs, attributes[..k])
    {
      assert attributes[..k + 1][..k] == attributes[..k];
      var parsed := AttributeRtpmap(codecs, attributes[k]);
      if parsed.Some? {
        own := own[parsed.value.payloadType := parsed.value.codec];
      }
    }
    assert attributes[..|attributes|] == attributes;
  }

  class SessionDescription {
    var mediaSections: seq<Media>

    constructor (mediaSections: seq<Media>)
      ensures this.mediaSections == mediaSections
    {
      this.mediaSections := mediaSections;
    }

    /** `intersect_answer` on this answer, for an offer with the given sections. */
    method IntersectAnswer(codecs: Codecs, offer: seq<Media>)
      modifies this
      ensures |mediaSections| == |old(mediaSections)|
      ensures var list := SelectedMedia(codecs, offer, Audio).codecs;
              forall i :: 0 <= i < |mediaSections| ==>
                Intersected(codecs, list, old(mediaSections)[i], mediaSections[i])
    {
      var peer := SelectPeerMedia(codecs, offer, Audio);
      for i := 0 to |mediaSections|
        invariant |mediaSections| == |old(mediaSections)|
        invariant forall k :: 0 <= k < i ==> Intersected(codecs, peer.codecs, old(mediaSections)[k], mediaSections[k])
        invariant forall k :: i <= k < |mediaSections| ==> mediaSections[k] == old(mediaSections)[k]
      {
        if mediaSections[i].kind == Audio {
          var own := ReadAnswerMap(codecs, mediaSections[i].attributes);
          var formats := IntersectFormats(codecs, own, peer.codecs, mediaSections[i].formats);
          mediaSections := mediaSections[i := Media(Audio, formats, Retain(mediaSections[i].attributes, formats))];
        }
      }
    }
  }

  // ---------- what the offer's codecs are ----------

  /** Text of the form "type name/rate" or "type name/rate/channels" parses to its parts; only the channel text "2"
      means two. */
  lemma RtpmapText(codecs: Codecs, payloadType: string, name: string, rate: string, channels: Option<string>)
    requires ' ' !in payloadType && ' ' !in name && '/' !in name && ' ' !in rate && '/' !in rate
    requires channels.Some? ==> ' ' !in channels.value && '/' !in channels.value
    requires ParseU8(payloadType).Some? && ParseUnsigned(rate, U32).Some? && name in codecs.byName
    ensures ParseRtpmap(codecs, payloadType + [' '] + (name + ['/'] + SpecTail(rate, channels)))
         == Some(RtpMap(ParseU8(payloadType).value, codecs.byName[name], ParseUnsigned(rate, U32).value,
                        if channels == Some("2") then 2 else 1))
  {
    var tail := SpecTail(rate, channels);
    var spec := name + ['/'] + tail;
    SplitAround(payloadType, spec, ' ');
    SplitWhole(spec, ' ');
    SplitAround(name, tail, '/');
    SplitTail(rate, channels);
    var parts := Split(spec, '/');
    assert Split(payloadType + [' '] + spec, ' ') == [payloadType, spec];
    assert parts[0] == name && parts[1] == rate;
    assert parts[2..] == if channels.Some? then [channels.value] else [];
    assert |["2"]| == 1 && ["2"][0] == "2";
  }

  function SpecTail(rate: string, channels: Option<string>): string {
    match channels case Some(c) => rate + ['/'] + c case None => rate
  }

  lemma SplitTail(rate: string, channels: Option<string>)
    requires '/' !in rate && (channels.Some? ==> '/' !in channels.value)
    ensures Split(SpecTail(rate, channels), '/') == [rate] + (if channels.Some? then [channels.value] else [])
  {
    if channels.Some? {
      SplitAround(rate, channels.value, '/');
      SplitWhole(channels.value, '/');
    } else {
      SplitWhole(rate, '/');
    }
  }

  /** The first rtpmap of a payload type decides. */
  lemma {:induction false} FindRtpmapIsFirst(maps: seq<RtpMap>, payloadType: nat, i: nat)
    requires i < |maps| && maps[i].payloadType == payloadType
    requires forall j :: 0 <= j < i ==> maps[j].payloadType != payloadType
    ensures FindRtpmap(maps, payloadType) == Some(maps[i].codec)
  {
    if i > 0 {
      FindRtpmapIsFirst(maps[1..], payloadType, i - 1);
    }
  }

  /** Format f of section i stands for codec c, with the rtpmaps of the sections up to it. */
  predicate Offers(codecs: Codecs, sections: seq<Media>, kind: MediaKind, i: nat, f: string, c: Codec)
    requires i < |sections|
  {
    && sections[i].kind == kind && f in sections[i].formats
    && c in OfferCodec(codecs, SelectedMedia(codecs, sections[..i + 1], kind).maps, f)
  }

  lemma {:induction false} FormatCodecsMeaning(codecs: Codecs, maps: seq<RtpMap>, formats: seq<string>, c: Codec)
    ensures c in FormatCodecs(codecs, maps, formats) <==> exists f :: f in formats && c in OfferCodec(codecs, maps, f)
  {
    if formats != [] {
      var n := |formats| - 1;
      FormatCodecsMeaning(codecs, maps, formats[..n], c);
      assert forall f :: f in formats <==> f in formats[..n] || f == formats[n];
    }
  }

  /** A codec is on the selected list exactly when some format of some section of the kind stands for it. */
  lemma {:induction false} SelectedIff(codecs: Codecs, sections: seq<Media>, kind: MediaKind, c: Codec)
    ensures c in SelectedMedia(codecs, sections, kind).codecs
       <==> exists i, f :: 0 <= i < |sections| && Offers(codecs, sections, kind, i, f, c)
  {
    if sections != [] {
      var n := |sections| - 1;
      SelectedIff(codecs, sections[..n], kind, c);
      forall i, f | 0 <= i < n
        ensures Offers(codecs, sections[..n], kind, i, f, c) <==> Offers(codecs, sections, kind, i, f, c)
      {
        assert sections[..n][..i + 1] == sections[..i + 1];
      }
      LastOffers(codecs, sections, n, kind, c);
    }
  }

  lemma LastOffers(codecs: Codecs, sections: seq<Media>, n: nat, kind: MediaKind, c: Codec)
    requires |sections| == n + 1
    ensures c in SelectedMedia(codecs, sections, kind).codecs
       <==> c in SelectedMedia(codecs, sections[..n], kind).codecs
            || exists f :: Offers(codecs, sections, kind, n, f, c)
  {
    var maps := SelectedMedia(codecs, sections, kind).maps;
    assert sections[..n + 1] == sections;
    FormatCodecsMeaning(codecs, maps, sections[n].formats, c);
    if sections[n].kind == kind && c in FormatCodecs(codecs, maps, sections[n].formats) {
      var f :| f in sections[n].formats && c in OfferCodec(codecs, maps, f);
      assert Offers(codecs, sections, kind, n, f, c);
    }
  }

  // ---------- what intersecting means ----------

  lemma Ordered(codecs: Codecs, own: map<nat, Codec>, offer: seq<Codec>, formats: seq<string>, r: seq<string>,
                a: nat, b: nat)
    requires IsIntersection(codecs, own, offer, formats, r) && a < |r| && b < |r|
    ensures r[a] in r && r[b] in r && Kept(codecs, own, offer, formats, r[a]) && Kept(codecs, own, offer, formats, r[b])
    ensures Before(codecs, own, offer, formats, r[a], r[b]) <==> a < b
  {
    if a < b {
      assert Before(codecs, own, offer, formats, r[a], r[b]);
    } else if b < a {
      assert Before(codecs, own, offer, formats, r[b], r[a]);
    }
  }

  /** The element at c in one list stands no earlier in the other. */
  lemma {:induction false} AtOrAfter(codecs: Codecs, own: map<nat, Codec>, offer: seq<Codec>, formats: seq<string>,
                                     r: seq<string>, s: seq<string>, c: nat)
    returns (a: nat)
    requires IsIntersection(codecs, own, offer, formats, r) && IsIntersection(codecs, own, offer, formats, s)
    requires c < |s|
    ensures a < |r| && r[a] == s[c] && c <= a
  {
    assert s[c] in s && s[c] in r;
    a :| 0 <= a < |r| && r[a] == s[c];
    if c > 0 {
      var b := AtOrAfter(codecs, own, offer, formats, r, s, c - 1);
      Ordered(codecs, own, offer, formats, s, c - 1, c);
      Ordered(codecs, own, offer, formats, r, b, a);
    }
  }

  /** There is one list that meets `IsIntersection`, so an intersected section is fully determined. */
  lemma IntersectionIsUnique(codecs: Codecs, own: map<nat, Codec>, offer: seq<Codec>, formats: seq<string>,
                             r: seq<string>, s: seq<string>)
    requires IsIntersection(codecs, own, offer, formats, r) && IsIntersection(codecs, own, offer, formats, s)
    ensures r == s
  {
    if |s| > 0 {
      SameElement(codecs, own, offer, formats, r, s, |s| - 1);
    }
    if |r| > 0 {
      SameElement(codecs, own, offer, formats, s, r, |r| - 1);
    }
    forall c | 0 <= c < |s| ensures r[c] == s[c] {
      SameElement(codecs, own, offer, formats, r, s, c);
    }
  }

  lemma SameElement(codecs: Codecs, own: map<nat, Codec>, offer: seq<Codec>, formats: seq<string>,
                    r: seq<string>, s: seq<string>, c: nat)
    requires IsIntersection(codecs, own, offer, formats, r) && IsIntersection(codecs, own, offer, formats, s)
    requires c < |s|
    ensures c < |r| && r[c] == s[c]
  {
    var a := AtOrAfter(codecs, own, offer, formats, r, s, c);
    var d := AtOrAfter(codecs, own, offer, formats, s, r, a);
    Ordered(codecs, own, offer, formats, s, c, d);
    Ordered(codecs, own, offer, formats, s, d, c);
  }

  /** The attributes that do not name a payload type. */
  function Others(attributes: seq<Attribute>): seq<Attribute> {
    if attributes == [] then []
    else
      var n := |attributes| - 1;
      if NamesPayloadType(attributes[n]) then Others(attributes[..n]) else Others(attributes[..n]) + [attributes[n]]
  }

  /** What survives refers to a kept format, and every attribute that does survives as often as it stood there. */
  lemma {:induction false} RetainsExactly(attributes: seq<Attribute>, formats: seq<string>, a: Attribute)
    ensures multiset(Retain(attributes, formats))[a] == if Survives(a, formats) then multiset(attributes)[a] else 0
  {
    if attributes != [] {
      var n := |attributes| - 1;
      RetainsExactly(attributes[..n], formats, a);
      assert attributes == attributes[..n] + [attributes[n]];
    }
  }

  /** The attributes that name no payload type all survive, in their order. */
  lemma {:induction false} RetainKeepsOthers(attributes: seq<Attribute>, formats: seq<string>)
    ensures Others(Retain(attributes, formats)) == Others(attributes)
  {
    if attributes != [] {
      var n := |attributes| - 1;
      RetainKeepsOthers(attributes[..n], formats);
      var before := Retain(attributes[..n], formats);
      if Survives(attributes[n], formats) {
        var kept := before + [attributes[n]];
        assert kept[..|before|] == before && kept[|before|] == attributes[n];
      }
    }
  }

  /** A second pass with the same formats removes nothing. */
  lemma {:induction false} RetainTwice(attributes: seq<Attribute>, formats: seq<string>)
    ensures Retain(Retain(attributes, formats), formats) == Retain(attributes, formats)
  {
    if attributes != [] {
      var n := |attributes| - 1;
      RetainTwice(attributes[..n], formats);
      var before := Retain(attributes[..n], formats);
      if Survives(attributes[n], formats) {
        var kept := before + [attributes[n]];
        assert kept[..|before|] == before && kept[|before|] == attributes[n];
      }
    }
  }

  predicate Maps(codecs: Codecs, a: Attribute, payloadType: nat) {
    var m := AttributeRtpmap(codecs, a);
    m.Some? && m.value.payloadType == payloadType
  }

  /** Every rtpmap that names the payload type of a format spells it exactly as the format does. */
  predicate SpelledAlike(codecs: Codecs, attributes: seq<Attribute>, formats: seq<string>) {
    forall k, f :: 0 <= k < |attributes| && f in formats ==>
      var m := AttributeRtpmap(codecs, attributes[k]);
      m.Some? && ParseU8(f) == Some(m.value.payloadType) ==> FirstWord(attributes[k].value.value) == Some(f)
  }

  /** Removing the rtpmaps of dropped formats leaves the codec of a kept format as it was. */
  lemma SameCodec(codecs: Codecs, attributes: seq<Attribute>, all: seq<string>, kept: seq<string>, f: string)
    requires SpelledAlike(codecs, attributes, all) && f in all && f in kept
    ensures AnswerCodec(codecs, AnswerMap(codecs, Retain(attributes, kept)), f)
         == AnswerCodec(codecs, AnswerMap(codecs, attributes), f)
  {
    if ParseU8(f).Some? {
      forall k | 0 <= k < |attributes| && Maps(codecs, attributes[k], ParseU8(f).value)
        ensures Survives(attributes[k], kept)
      {
        assert FirstWord(attributes[k].value.value) == Some(f);
      }
      SameEntry(codecs, attributes, kept, ParseU8(f).value);
    }
  }

  lemma {:induction false} SameEntry(codecs: Codecs, attributes: seq<Attribute>, kept: seq<string>, payloadType: nat)
    requires forall k :: 0 <= k < |attributes| && Maps(codecs, attributes[k], payloadType) ==>
               Survives(attributes[k], kept)
    ensures Entry(codecs, Retain(attributes, kept), payloadType) == Entry(codecs, attributes, payloadType)
  {
    if attributes != [] {
      var n := |attributes| - 1;
      SameEntry(codecs, attributes[..n], kept, payloadType);
      EntryStep(codecs, Retain(attributes[..n], kept), attributes[n], payloadType);
      EntryStep(codecs, attributes[..n], attributes[n], payloadType);
      assert attributes[..n] + [attributes[n]] == attributes;
    }
  }

  function Entry(codecs: Codecs, attributes: seq<Attribute>, payloadType: nat): Option<Codec> {
    var own := AnswerMap(codecs, attributes);
    if payloadType in own then Some(own[payloadType]) else None
  }

  lemma EntryStep(codecs: Codecs, before: seq<Attribute>, a: Attribute, payloadType: nat)
    ensures Entry(codecs, before + [a], payloadType)
         == if Maps(codecs, a, payloadType) then Some(AttributeRtpmap(codecs, a).value.codec)
            else Entry(codecs, before, payloadType)
  {
    AnswerMapStep(codecs, before, a);
  }

  lemma AnswerMapStep(codecs: Codecs, before: seq<Attribute>, a: Attribute)
    ensures AnswerMap(codecs, before + [a])
         == match AttributeRtpmap(codecs, a)
            case Some(m) => AnswerMap(codecs, before)[m.payloadType := m.codec]
            case None => AnswerMap(codecs, before)
  {
    assert (before + [a])[..|before|] == before;
  }

  lemma StandsAt(codecs: Codecs, own: map<nat, Codec>, offer: seq<Codec>, formats: seq<string>, r: seq<string>, i: nat)
    requires IsIntersection(codecs, own, offer, formats, r) && i < |r|
    ensures r[i] in r && FirstIndex(r, r[i]) == i
  {
    Ordered(codecs, own, offer, formats, r, FirstIndex(r, r[i]), i);
    Ordered(codecs, own, offer, formats, r, i, FirstIndex(r, r[i]));
  }

  // ---------- intersecting twice, for every answer ----------

  /** The codec of the last rtpmap for a payload type that starts with a kept format. */
  function KeptRtpmap(codecs: Codecs, attributes: seq<Attribute>, kept: seq<string>, payloadType: nat): Option<Codec> {
    if attributes == [] then None
    else
      var n := |attributes| - 1;
      if Maps(codecs, attributes[n], payloadType) && Survives(attributes[n], kept)
      then Some(AttributeRtpmap(codecs, attributes[n]).value.codec)
      else KeptRtpmap(codecs, attributes[..n], kept, payloadType)
  }

  /** What a format stands for when the answer is intersected again: that codec, or else its static one. */
  function SecondCodec(codecs: Codecs, attributes: seq<Attribute>, kept: seq<string>, f: string): Option<Codec> {
    match ParseU8(f)
    case None => None
    case Some(pt) =>
      match KeptRtpmap(codecs, attributes, kept, pt)
      case Some(c) => Some(c)
      case None => if pt in codecs.byPayloadType then Some(codecs.byPayloadType[pt]) else None
  }

  lemma {:induction false} KeptRtpmapIsEntry(codecs: Codecs, attributes: seq<Attribute>, kept: seq<string>,
                                             payloadType: nat)
    ensures Entry(codecs, Retain(attributes, kept), payloadType) == KeptRtpmap(codecs, attributes, kept, payloadType)
  {
    if attributes != [] {
      var n := |attributes| - 1;
      KeptRtpmapIsEntry(codecs, attributes[..n], kept, payloadType);
      EntryStep(codecs, Retain(attributes[..n], kept), attributes[n], payloadType);
    }
  }

  lemma SecondCodecIsAnswerCodec(codecs: Codecs, attributes: seq<Attribute>, kept: seq<string>, f: string)
    ensures AnswerCodec(codecs, AnswerMap(codecs, Retain(attributes, kept)), f)
         == SecondCodec(codecs, attributes, kept, f)
  {
    if ParseU8(f).Some? {
      KeptRtpmapIsEntry(codecs, attributes, kept, ParseU8(f).value);
    }
  }

  predicate OfferHas(offer: seq<Codec>, c: Option<Codec>) {
    c.Some? && c.value in offer
  }

  /** A kept format is kept again if and only if the offer has the codec it then stands for. */
  lemma KeptAgainIff(codecs: Codecs, offer: seq<Codec>, m: Media, once: Media, twice: Media, f: string)
    requires m.kind == Audio && Intersected(codecs, offer, m, once) && Intersected(codecs, offer, once, twice)
    requires f in once.formats
    ensures f in twice.formats <==> OfferHas(offer, SecondCodec(codecs, m.attributes, once.formats, f))
  {
    SecondCodecIsAnswerCodec(codecs, m.attributes, once.formats, f);
    assert f in twice.formats <==> Kept(codecs, AnswerMap(codecs, once.attributes), offer, once.formats, f);
  }

  /** The formats of the first result still stand in the order of the offer. */
  predicate StillInOrder(codecs: Codecs, offer: seq<Codec>, attributes: seq<Attribute>, r: seq<string>) {
    && (forall i :: 0 <= i < |r| ==> OfferHas(offer, SecondCodec(codecs, attributes, r, r[i])))
    && (forall i, j :: 0 <= i < j < |r| ==>
          FirstIndex(offer, SecondCodec(codecs, attributes, r, r[i]).value)
          <= FirstIndex(offer, SecondCodec(codecs, attributes, r, r[j]).value))
  }

  /** Intersecting an answer again changes nothing if and only if each kept format still stands for a codec of the offer
      and these codecs still stand in its order. */
  lemma TwiceIsOnceIff(codecs: Codecs, offer: seq<Codec>, m: Media, once: Media, twice: Media)
    requires Intersected(codecs, offer, m, once) && Intersected(codecs, offer, once, twice)
    ensures twice == once <==> (m.kind == Audio ==> StillInOrder(codecs, offer, m.attributes, once.formats))
  {
    if m.kind == Audio {
      var r := once.formats;
      var own' := AnswerMap(codecs, once.attributes);
      RetainTwice(m.attributes, r);
      forall f ensures AnswerCodec(codecs, own', f) == SecondCodec(codecs, m.attributes, r, f) {
        SecondCodecIsAnswerCodec(codecs, m.attributes, r, f);
      }
      forall i | 0 <= i < |r| ensures FirstIndex(r, r[i]) == i {
        StandsAt(codecs, AnswerMap(codecs, m.attributes), offer, m.formats, r, i);
      }
      if twice.formats == r {
        OrderOfSelf(codecs, own', offer, m.attributes, r);
      }
      if StillInOrder(codecs, offer, m.attributes, r) {
        SelfIntersected(codecs, own', offer, m.attributes, r);
        IntersectionIsUnique(codecs, own', offer, r, r, twice.formats);
      }
    }
  }

  lemma OrderOfSelf(codecs: Codecs, own: map<nat, Codec>, offer: seq<Codec>, attributes: seq<Attribute>, r: seq<string>)
    requires IsIntersection(codecs, own, offer, r, r)
    requires forall f :: AnswerCodec(codecs, own, f) == SecondCodec(codecs, attributes, r, f)
    ensures StillInOrder(codecs, offer, attributes, r)
  {
    forall i | 0 <= i < |r| ensures OfferHas(offer, SecondCodec(codecs, attributes, r, r[i])) {
      assert Kept(codecs, own, offer, r, r[i]);
    }
    forall i, j | 0 <= i < j < |r|
      ensures FirstIndex(offer, SecondCodec(codecs, attributes, r, r[i]).value)
           <= FirstIndex(offer, SecondCodec(codecs, attributes, r, r[j]).value)
    {
      assert Before(codecs, own, offer, r, r[i], r[j]);
    }
  }

  lemma SelfIntersected(codecs: Codecs, own: map<nat, Codec>, offer: seq<Codec>, attributes: seq<Attribute>,
                        r: seq<string>)
    requires StillInOrder(codecs, offer, attributes, r)
    requires forall f :: AnswerCodec(codecs, own, f) == SecondCodec(codecs, attributes, r, f)
    requires forall i :: 0 <= i < |r| ==> FirstIndex(r, r[i]) == i
    ensures IsIntersection(codecs, own, offer, r, r)
  {
    forall i | 0 <= i < |r| ensures Kept(codecs, own, offer, r, r[i]) {
      assert OfferHas(offer, SecondCodec(codecs, attributes, r, r[i]));
    }
  }

  /** Payload types spelled alike are one way to meet this: then every kept format stands for the codec it had. */
  lemma SpelledAlikeKeepsCodec(codecs: Codecs, m: Media, kept: seq<string>, f: string)
    requires SpelledAlike(codecs, m.attributes, m.formats) && f in m.formats && f in kept
    ensures SecondCodec(codecs, m.attributes, kept, f) == AnswerCodec(codecs, AnswerMap(codecs, m.attributes), f)
  {
    SameCodec(codecs, m.attributes, m.formats, kept, f);
    SecondCodecIsAnswerCodec(codecs, m.attributes, kept, f);
  }

  /** With payload types spelled alike, intersecting an answer again with the same offer changes nothing. */
  lemma IntersectingTwice(codecs: Codecs, offer: seq<Codec>, m: Media, once: Media, twice: Media)
    requires m.kind == Audio ==> SpelledAlike(codecs, m.attributes, m.formats)
    requires Intersected(codecs, offer, m, once) && Intersected(codecs, offer, once, twice)
    ensures twice == once
  {
    if m.kind == Audio {
      var (own, r) := (AnswerMap(codecs, m.attributes), once.formats);
      forall i | 0 <= i < |r|
        ensures Kept(codecs, own, offer, m.formats, r[i])
        ensures SecondCodec(codecs, m.attributes, r, r[i]) == AnswerCodec(codecs, own, r[i])
      {
        assert r[i] in r;
        SpelledAlikeKeepsCodec(codecs, m, r, r[i]);
      }
      forall i, j | 0 <= i < j < |r|
        ensures FirstIndex(offer, SecondCodec(codecs, m.attributes, r, r[i]).value)
             <= FirstIndex(offer, SecondCodec(codecs, m.attributes, r, r[j]).value)
      {
        assert Before(codecs, own, offer, m.formats, r[i], r[j]);
      }
    }
    TwiceIsOnceIff(codecs, offer, m, once, twice);
  }

  /** A concrete answer that loses its only format: "096" with the rtpmap "96 o/8". */
  lemma SpellingMatters(codecs: Codecs, once: Media, twice: Media)
    requires codecs == Codecs(map["o" := 1], map[])
    requires Intersected(codecs, [1], Media(Audio, ["096"], [Attribute("rtpmap", Some("96 o/8"))]), once)
    requires Intersected(codecs, [1], once, twice)
    ensures once.formats == ["096"] && twice.formats == []
  {
    var rtpmap := Attribute("rtpmap", Some("96 o/8"));
    ExampleRtpmap(codecs);
    ExampleFormat();
    EntryStep(codecs, [], rtpmap, 96);
    assert [] + [rtpmap] == [rtpmap];
    var own := AnswerMap(codecs, [rtpmap]);
    assert Kept(codecs, own, [1], ["096"], "096");
    assert IsIntersection(codecs, own, [1], ["096"], ["096"]);
    IntersectionIsUnique(codecs, own, [1], ["096"], once.formats, ["096"]);
    ExampleDropped(codecs, once, twice);
    if |twice.formats| > 0 {
      KeepsOnly(codecs, [1], once, twice, twice.formats[0]);
    }
  }

  lemma KeepsOnly(codecs: Codecs, offer: seq<Codec>, m: Media, after: Media, f: string)
    requires Intersected(codecs, offer, m, after) && f in after.formats
    ensures f in m.formats
  {
  }

  lemma ExampleDropped(codecs: Codecs, once: Media, twice: Media)
    requires codecs == Codecs(map["o" := 1], map[]) && once.formats == ["096"]
    requires Intersected(codecs, [1], Media(Audio, ["096"], [Attribute("rtpmap", Some("96 o/8"))]), once)
    requires Intersected(codecs, [1], once, twice)
    ensures "096" !in twice.formats
  {
    var rtpmap := Attribute("rtpmap", Some("96 o/8"));
    ExampleRtpmap(codecs);
    ExampleFormat();
    ExampleGoes(rtpmap);
    assert [rtpmap][..0] == [];
    KeptAgainIff(codecs, [1], Media(Audio, ["096"], [rtpmap]), once, twice, "096");
  }

  lemma ExampleGoes(a: Attribute)
    requires a == Attribute("rtpmap", Some("96 o/8"))
    ensures !Survives(a, ["096"])
  {
    ExampleFirstWord();
    assert |"96"| != |"096"|;
  }

  lemma ExampleRtpmap(codecs: Codecs)
    requires codecs.byName == map["o" := 1]
    ensures ParseRtpmap(codecs, "96 o/8") == Some(RtpMap(96, 1, 8, 1))
  {
    ExampleWords();
    ExampleParts();
    ExampleNumbers();
  }

  lemma ExampleNumbers()
    ensures ParseU8("96") == Some(96) && ParseUnsigned("8", U32) == Some(8)
  {
    TwoDigits('9', '6');
    DecimalStep("", '8');
    assert ['9', '6'] == "96" && "" + ['8'] == "8";
  }

  lemma ExampleFirstWord()
    ensures FirstWord("96 o/8") == Some("96")
  {
    ExampleWords();
    TwoDigits('9', '6');
    assert ['9', '6'] == "96";
    NumberIsFirstWord("96 o/8");
  }

  lemma ExampleWords()
    ensures Split("96 o/8", ' ') == ["96", "o/8"]
  {
    assert "96" + [' '] + "o/8" == "96 o/8";
    SplitAround("96", "o/8", ' ');
    SplitWhole("o/8", ' ');
  }

  lemma ExampleParts()
    ensures Split("o/8", '/') == ["o", "8"]
  {
    assert "o" + ['/'] + "8" == "o/8";
    SplitAround("o", "8", '/');
    SplitWhole("8", '/');
  }

  lemma ExampleFormat()
    ensures ParseU8("096") == Some(96)
  {
    TwoDigits('0', '9');
    DecimalStep(['0', '9'], '6');
    assert ['0', '9'] + ['6'] == "096";
  }
}
