/** Normalisation of the ElevenLabs voice list returned by the platform and
    the choice of a default voice. */
module Voices {
  import opened Js

  /** A voice record as the platform returns it. Its shape is loose: each
      field may be absent, and the field names are the JSON keys. */
  datatype RawVoice = RawVoice(
    voiceId: Option<string>,
    voice_id: Option<string>,
    id: Option<string>,
    ttsVoice: Option<string>,
    displayName: Option<string>,
    name: Option<string>,
    locale: Option<string>,
    languageCode: Option<string>,
    language: Option<string>,
    gender: Option<string>)

  /** A voice as the voice picker uses it; an empty string stands for
      "unknown". */
  datatype Voice = Voice(
    voiceId: string,
    displayName: string,
    locale: string,
    language: string,
    gender: string)

  /** The fields `voiceId` is taken from, most preferred first. */
  function IdChain(v: RawVoice): seq<Option<string>> {
    [v.voiceId, v.voice_id, v.id, v.ttsVoice]
  }

  /** The fields `displayName` is taken from, most preferred first. The
      fallbacks are the raw `voiceId` and `id` fields, not `voice_id`. */
  function NameChain(v: RawVoice): seq<Option<string>> {
    [v.displayName, v.name, v.ttsVoice, v.voiceId, v.id]
  }

  /** The fixed-shape voice made from a raw record: each field is the first
      non-empty value along its fallback chain, or empty. */
  function Normalise(v: RawVoice): (r: Voice)
    ensures IsFirstTruthy(IdChain(v), r.voiceId)
    ensures IsFirstTruthy(NameChain(v), r.displayName)
    ensures IsFirstTruthy([v.locale, v.languageCode], r.locale)
    ensures IsFirstTruthy([v.language], r.language)
    ensures IsFirstTruthy([v.gender], r.gender)
  {
    Voice(Or(IdChain(v)), Or(NameChain(v)), Or([v.locale, v.languageCode]),
          Or([v.language]), Or([v.gender]))
  }

  /** The filter applied after normalising: a voice needs both an id and a
      name to be offered. */
  predicate Usable(v: Voice) {
    v.voiceId != "" && v.displayName != ""
  }

  /** A raw record survives normalisation exactly when it has a `voiceId`,
      `id` or `ttsVoice`, or has a `voice_id` together with a `displayName`
      or `name`. A record carrying only `voice_id` is dropped, because the
      name chain does not fall back to `voice_id`. */
  lemma {:induction false} UsableIff(v: RawVoice)
    ensures Usable(Normalise(v)) <==>
      || Truthy(v.voiceId) || Truthy(v.id) || Truthy(v.ttsVoice)
      || (Truthy(v.voice_id) && (Truthy(v.displayName) || Truthy(v.name)))
  {
    var r := Normalise(v);
    assert r.voiceId != "" <==> exists j :: 0 <= j < 4 && Truthy(IdChain(v)[j]);
    assert r.displayName != "" <==> exists j :: 0 <= j < 5 && Truthy(NameChain(v)[j]);
    if Truthy(v.voice_id) && !Truthy(v.voiceId) && !Truthy(v.id) && !Truthy(v.ttsVoice) {
      assert Truthy(IdChain(v)[1]);
    }
    if Truthy(v.ttsVoice) {
      assert Truthy(IdChain(v)[3]) && Truthy(NameChain(v)[2]);
    }
    if Truthy(v.voiceId) {
      assert Truthy(IdChain(v)[0]) && Truthy(NameChain(v)[3]);
    }
    if Truthy(v.id) {
      assert Truthy(IdChain(v)[2]) && Truthy(NameChain(v)[4]);
    }
    if Truthy(v.displayName) {
      assert Truthy(NameChain(v)[0]);
    }
    if Truthy(v.name) {
      assert Truthy(NameChain(v)[1]);
    }
  }

  /** Normalises every raw record, keeping the list's order and length. */
  function NormaliseEach(raw: seq<RawVoice>): (mapped: seq<Voice>)
    ensures |mapped| == |raw|
    ensures forall i :: 0 <= i < |raw| ==> mapped[i] == Normalise(raw[i])
  {
    seq(|raw|, i requires 0 <= i < |raw| => Normalise(raw[i]))
  }

  /** Keeps the voices that have both an id and a display name. */
  function KeepUsable(vs: seq<Voice>): (list: seq<Voice>)
    ensures |list| <= |vs|
    ensures forall k :: 0 <= k < |list| ==> Usable(list[k]) && list[k] in vs
    ensures forall i :: 0 <= i < |vs| && Usable(vs[i]) ==> vs[i] in list
    decreases |vs|
  {
    if |vs| == 0 then []
    else
      var init := vs[..|vs| - 1];
      var rest := KeepUsable(init);
      assert forall i :: 0 <= i < |init| ==> init[i] == vs[i];
      if Usable(vs[|vs| - 1]) then rest + [vs[|vs| - 1]] else rest
  }

  /** The voice list offered to the user: normalise every raw record, then
      keep the usable ones. */
  function NormaliseAll(raw: seq<RawVoice>): (list: seq<Voice>)
    ensures |list| <= |raw|
    ensures forall k :: 0 <= k < |list| ==> Usable(list[k])
    ensures forall k :: 0 <= k < |list| ==> list[k] in NormaliseEach(raw)
    ensures forall i :: 0 <= i < |raw| && Usable(Normalise(raw[i])) ==>
              Normalise(raw[i]) in list
  {
    KeepUsable(NormaliseEach(raw))
  }

  /** The positions of the voices that pass the filter, in increasing order. */
  function Kept(vs: seq<Voice>): seq<nat>
    decreases |vs|
  {
    if |vs| == 0 then []
    else Kept(vs[..|vs| - 1]) + (if Usable(vs[|vs| - 1]) then [|vs| - 1] else [])
  }

  /** Every kept position is a position of the input, and the positions
      strictly increase. */
  lemma {:induction false} KeptIncreasing(vs: seq<Voice>)
    ensures forall k :: 0 <= k < |Kept(vs)| ==> Kept(vs)[k] < |vs|
    ensures forall k, l :: 0 <= k < l < |Kept(vs)| ==> Kept(vs)[k] < Kept(vs)[l]
    decreases |vs|
  {
    if |vs| > 0 {
      KeptIncreasing(vs[..|vs| - 1]);
    }
  }

  /** A position is kept exactly when its voice is usable. */
  lemma {:induction false} KeptIffUsable(vs: seq<Voice>)
    ensures forall i :: 0 <= i < |vs| ==> (i in Kept(vs) <==> Usable(vs[i]))
    decreases |vs|
  {
    if |vs| > 0 {
      var n := |vs| - 1;
      var init := vs[..n];
      KeptIffUsable(init);
      KeptIncreasing(init);
      assert forall i :: 0 <= i < n ==> init[i] == vs[i];
      assert n !in Kept(init);
    }
  }

  /** The induction step behind the first two clauses of `KeepUsableSelects`,
      kept apart so that each proof stays small. */
  lemma {:induction false} KeepUsableAtKept(vs: seq<Voice>)
    ensures |Kept(vs)| == |KeepUsable(vs)|
    ensures forall k :: 0 <= k < |Kept(vs)| ==>
              Kept(vs)[k] < |vs| && KeepUsable(vs)[k] == vs[Kept(vs)[k]]
    decreases |vs|
  {
    KeptIncreasing(vs);
    if |vs| > 0 {
      var n := |vs| - 1;
      var init := vs[..n];
      KeepUsableAtKept(init);
      assert forall i :: 0 <= i < n ==> init[i] == vs[i];
    }
  }

  /** The filter is an order-preserving selection: its `k`-th voice is voice
      `Kept(vs)[k]` of the input, those positions strictly increase, and a
      position is kept exactly when its voice is usable. */
  lemma {:induction false} KeepUsableSelects(vs: seq<Voice>)
    ensures |Kept(vs)| == |KeepUsable(vs)|
    ensures forall k :: 0 <= k < |Kept(vs)| ==>
              Kept(vs)[k] < |vs| && KeepUsable(vs)[k] == vs[Kept(vs)[k]]
    ensures forall k, l :: 0 <= k < l < |Kept(vs)| ==> Kept(vs)[k] < Kept(vs)[l]
    ensures forall i :: 0 <= i < |vs| ==> (i in Kept(vs) <==> Usable(vs[i]))
  {
    KeptIncreasing(vs);
    KeptIffUsable(vs);
    KeepUsableAtKept(vs);
  }

  /** The position of the first usable voice, or `|vs|` when none is. */
  function FirstUsable(vs: seq<Voice>): (i: nat)
    ensures i <= |vs|
    ensures i < |vs| ==> Usable(vs[i])
    ensures forall j :: 0 <= j < i ==> !Usable(vs[j])
  {
    if |vs| == 0 || Usable(vs[0]) then 0
    else
      var i := FirstUsable(vs[1..]);
      assert forall j :: 1 <= j < |vs| ==> vs[j] == vs[1..][j - 1];
      1 + i
  }

  /** The filtered list is non-empty exactly when some voice is usable, and
      it then starts with the first usable voice. */
  lemma {:induction false} KeepUsableHead(vs: seq<Voice>)
    ensures |KeepUsable(vs)| > 0 <==> FirstUsable(vs) < |vs|
    ensures |KeepUsable(vs)| > 0 ==> KeepUsable(vs)[0] == vs[FirstUsable(vs)]
  {
    KeepUsableSelects(vs);
    var f := FirstUsable(vs);
    if f < |vs| {
      assert f in Kept(vs);
      var i := Kept(vs)[0];
      assert Usable(vs[i]);
      assert forall k :: 0 <= k < |Kept(vs)| ==> i <= Kept(vs)[k];
      assert i <= f;
    }
  }

  /** After a load, the first listed voice becomes the selection when none
      is selected yet and the list is not empty. */
  function DefaultVoice(current: string, list: seq<Voice>): (r: string)
    ensures current != "" ==> r == current
    ensures current == "" && |list| > 0 ==> r == list[0].voiceId
    ensures current == "" && |list| == 0 ==> r == ""
  {
    if current == "" && |list| > 0 then list[0].voiceId else current
  }

  /** After loading the normalised records `vs` (`NormaliseEach(raw)`), a
      selection exists exactly when one existed before or some record is
      usable; a new selection is the id of the first usable record. Loading
      the same list again changes nothing. */
  lemma {:induction false} LoadedSelection(current: string, vs: seq<Voice>)
    ensures var r := DefaultVoice(current, KeepUsable(vs));
            var i := FirstUsable(vs);
      && (r != "" <==> current != "" || i < |vs|)
      && (current == "" && i < |vs| ==> r == vs[i].voiceId)
      && DefaultVoice(r, KeepUsable(vs)) == r
  {
    KeepUsableHead(vs);
  }
}
