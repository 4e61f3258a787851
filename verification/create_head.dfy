/** Creating a streaming avatar ("head"): the input guard, the create body,
    reading the new head's id, and deriving the stream link from the head's
    public URL. */
module CreateHead {
  import opened Js
  import opened Api

  /** Origin of the stream links handed to the user. */
  const StreamBase := "https://stream.unith.ai/"

  const HeadIdMissing := "Head ID not returned."

  /** The JSON body of `POST /head/create`. The alias doubles as the name,
      speech settings are fixed to US English and ElevenLabs, and `orgId` is
      sent only when one was entered. */
  function CreateBody(visual: string, alias: string, voice: string, orgId: string)
    : (body: Object)
    ensures body.Keys == {"headVisualId", "alias", "name", "languageSpeechRecognition",
                          "language", "operationMode", "ttsProvider", "ttsVoice", "greetings"}
                         + (if orgId != "" then {"orgId"} else {})
    ensures body["headVisualId"] == visual
    ensures body["alias"] == alias && body["name"] == alias
    ensures body["languageSpeechRecognition"] == "en-US" && body["language"] == "en-US"
    ensures body["operationMode"] == "oc"
    ensures body["ttsProvider"] == "elevenlabs"
    ensures body["ttsVoice"] == voice
    ensures body["greetings"] == ""
    ensures "orgId" in body ==> body["orgId"] == orgId
  {
    var fixed := map[
      "headVisualId" := visual,
      "alias" := alias,
      "name" := alias,
      "languageSpeechRecognition" := "en-US",
      "language" := "en-US",
      "operationMode" := "oc",
      "ttsProvider" := "elevenlabs",
      "ttsVoice" := voice,
      "greetings" := ""];
    if orgId != "" then fixed["orgId" := orgId] else fixed
  }

  /** Entering an org id only adds the `orgId` member: every other member is
      the same as without one. */
  lemma {:induction false} OrgIdOnlyAddsMember(visual: string, alias: string, voice: string, orgId: string)
    ensures CreateBody(visual, alias, voice, orgId) - {"orgId"} == CreateBody(visual, alias, voice, "")
  {
  }

  /** The create body carries the form faithfully: two bodies are equal only
      when they were built from the same visual, alias, voice and org id. */
  lemma {:induction false} CreateBodyInjective(v1: string, a1: string, vo1: string, o1: string,
                                               v2: string, a2: string, vo2: string, o2: string)
    requires CreateBody(v1, a1, vo1, o1) == CreateBody(v2, a2, vo2, o2)
    ensures v1 == v2 && a1 == a2 && vo1 == vo2 && o1 == o2
  {
  }

  /** Pressing "Create": nothing happens unless a visual is selected and an
      alias entered; otherwise the create request is posted with the current
      token. */
  function CreateRequest(token: string, visual: string, alias: string, voice: string, orgId: string)
    : (r: Option<Request>)
    ensures r.None? <==> visual == "" || alias == ""
    ensures r.Some? ==> r.value.url == ApiBase + "/head/create" && r.value.httpMethod == "POST"
    ensures r.Some? ==> r.value.body == Some(CreateBody(visual, alias, voice, orgId))
    ensures r.Some? ==> (Authorization in r.value.headers <==> token != "")
  {
    if visual == "" || alias == "" then None
    else Some(Call(token, "/head/create", Some("POST"), Some(CreateBody(visual, alias, voice, orgId))))
  }

  /** The response to `POST /head/create`. */
  datatype CreatedHead = CreatedHead(
    id: Option<string>,
    publicId: Option<string>,
    headId: Option<string>,
    publicUrl: Option<string>)

  /** The response to `GET /head/{id}`. */
  datatype HeadDetails = HeadDetails(publicUrl: Option<string>)

  /** The id fields of the create response, most preferred first: `id`,
      `publicId`, `headId`; all absent when there is no response body. */
  function IdChain(created: Option<CreatedHead>): seq<Option<string>> {
    if created.None? then [None, None, None]
    else [created.value.id, created.value.publicId, created.value.headId]
  }

  /** The new head's id: the first non-empty of `id`, `publicId`, `headId`;
      the flow stops with an error when there is none. */
  function NewHeadId(created: Option<CreatedHead>): (r: Result<string>)
    ensures r.Ok? ==> r.value != "" && IsFirstTruthy(IdChain(created), r.value)
    ensures r.Err? <==> forall j :: 0 <= j < 3 ==> !Truthy(IdChain(created)[j])
    ensures r.Err? ==> r.message == HeadIdMissing
  {
    var id := Or(IdChain(created));
    if id == "" then Err(HeadIdMissing) else Ok(id)
  }

  /** The head's public URL: the one in the head details when non-empty,
      else the one in the create response, else empty. */
  function PublicUrl(details: Option<HeadDetails>, created: Option<CreatedHead>): (url: string)
    ensures details.Some? && Truthy(details.value.publicUrl) ==>
              url == details.value.publicUrl.value
    ensures !(details.Some? && Truthy(details.value.publicUrl)) ==>
              url == (if created.Some? && Truthy(created.value.publicUrl)
                      then created.value.publicUrl.value else "")
  {
    var chain := [
      if details.Some? then details.value.publicUrl else None,
      if created.Some? then created.value.publicUrl else None];
    assert Truthy(chain[0]) ==> FirstTruthyAt(chain, 0);
    assert !Truthy(chain[0]) && Truthy(chain[1]) ==> FirstTruthyAt(chain, 1);
    var url := Or(chain);
    FirstTruthyUnique(chain, url, if Truthy(chain[0]) then chain[0].value
                                  else if Truthy(chain[1]) then chain[1].value else "");
    url
  }

  /** The non-empty pieces of a pathname split at every `/`, in order. */
  function Segments(pathname: string): (segs: seq<string>)
    ensures forall k :: 0 <= k < |segs| ==> segs[k] != "" && '/' !in segs[k]
  {
    NonEmpty(Split(pathname, '/'))
  }

  /** The stream link for a public URL, given the URL's pathname and its
      `api_key` query value (absent when the parameter is missing). A link
      exists only when the path has an org segment and a head segment and
      the key is non-empty; it is built from the first two segments. */
  function StreamUrl(pathname: string, apiKey: Option<string>): (r: Option<string>)
    ensures r.Some? <==> |Segments(pathname)| >= 2 && Truthy(apiKey)
    ensures r.Some? ==>
              r.value == StreamBase + Segments(pathname)[0] + "/" + Segments(pathname)[1]
                         + "?api_key=" + apiKey.value
  {
    var parts := Segments(pathname);
    var org := if |parts| > 0 then parts[0] else "";
    var head := if |parts| > 1 then parts[1] else "";
    var key := if apiKey.Some? then apiKey.value else "";
    if org != "" && head != "" && key != "" then
      Some(StreamBase + org + "/" + head + "?api_key=" + key)
    else None
  }

  /** For any pathname, written as its slash-free pieces joined with `/`, the
      segments are exactly the non-empty pieces, in order: empty pieces from a
      leading, trailing or doubled `/` are skipped and nothing else is. */
  lemma {:induction false} SegmentsOfPieces(pieces: seq<string>)
    requires |pieces| >= 1
    requires forall k :: 0 <= k < |pieces| ==> '/' !in pieces[k]
    ensures Segments(Join(pieces, '/')) == NonEmpty(pieces)
  {
    SplitJoin(pieces, '/');
  }

  /** A trailing slash does not change the org and head segments. */
  lemma {:induction false} SegmentsTrailingSlash(org: string, head: string)
    requires org != "" && '/' !in org && head != "" && '/' !in head
    ensures Segments("/" + org + "/" + head + "/") == [org, head]
  {
    var pieces := ["", org, head, ""];
    assert Join(pieces, '/') == "/" + org + "/" + head + "/" by {
      assert Join(pieces[3..], '/') == "";
      assert Join(pieces[2..], '/') == head + "/";
      assert Join(pieces[1..], '/') == org + "/" + head + "/";
    }
    SegmentsOfPieces(pieces);
    assert NonEmpty(pieces) == [org, head] by {
      NonEmptyAppend(["", org], [head, ""]);
      NonEmptyAppend([""], [org]);
      NonEmptyAppend([head], [""]);
      assert ["", org] + [head, ""] == pieces;
    }
  }

  /** A doubled leading slash does not change the org and head segments. */
  lemma {:induction false} SegmentsDoubledSlash(org: string, head: string)
    requires org != "" && '/' !in org && head != "" && '/' !in head
    ensures Segments("//" + org + "/" + head) == [org, head]
  {
    var pieces := ["", "", org, head];
    assert Join(pieces, '/') == "//" + org + "/" + head by {
      var tail := [org, head];
      assert Join(tail, '/') == org + "/" + head by {
        assert tail[1..] == [head];
      }
      assert pieces[1..] == [""] + tail && pieces[1..][1..] == tail;
      assert Join(pieces[1..], '/') == "/" + org + "/" + head;
      assert pieces[0] == "";
    }
    SegmentsOfPieces(pieces);
    assert NonEmpty(pieces) == [org, head] by {
      var empties, segs := ["", ""], [org, head];
      NonEmptyAppend(empties, segs);
      assert empties + segs == pieces;
      assert NonEmpty(empties) == [] by {
        NonEmptyAppend([""], [""]);
        assert [""] + [""] == empties;
      }
      assert NonEmpty(segs) == segs by {
        NonEmptyKeepsNonEmpty(segs);
      }
    }
  }

  /** A pathname `/s0/s1/...` made of non-empty, slash-free segments yields
      exactly those segments. */
  lemma {:induction false} SegmentsOfPath(segs: seq<string>)
    requires |segs| >= 1
    requires forall k :: 0 <= k < |segs| ==> segs[k] != "" && '/' !in segs[k]
    ensures Segments("/" + Join(segs, '/')) == segs
  {
    var pieces := [""] + segs;
    JoinAppend([""], segs, '/');
    assert Join([""], '/') == "";
    assert "/" + Join(segs, '/') == Join(pieces, '/');
    SplitJoin(pieces, '/');
    assert pieces[0] == "" && pieces[1..] == segs;
    assert NonEmpty(pieces) == NonEmpty(segs);
    NonEmptyKeepsNonEmpty(segs);
  }

  /** For a public URL whose path is `/org/head/...` made of non-empty,
      slash-free segments and a non-empty key, the link is
      `https://stream.unith.ai/org/head?api_key=key`; further segments are
      ignored. */
  lemma {:induction false} StreamUrlOfPublicPath(segs: seq<string>, key: string)
    requires |segs| >= 2
    requires forall k :: 0 <= k < |segs| ==> segs[k] != "" && '/' !in segs[k]
    requires key != ""
    ensures StreamUrl("/" + Join(segs, '/'), Some(key))
            == Some(StreamBase + segs[0] + "/" + segs[1] + "?api_key=" + key)
  {
    SegmentsOfPath(segs);
  }

  /** The link's own path names the org and head it was built from, so a
      link read back yields the same two segments. */
  lemma {:induction false} StreamPathSegments(org: string, head: string)
    requires org != "" && '/' !in org && head != "" && '/' !in head
    ensures Segments("/" + org + "/" + head) == [org, head]
  {
    SegmentsOfPath([org, head]);
    assert Join([org, head], '/') == org + "/" + Join([head], '/');
    assert "/" + Join([org, head], '/') == "/" + org + "/" + head;
  }
}
