/** Normalisation of a recognition response into the song record the
    identifier stores (`process_audio_and_recognize`, hello.py). */
module Recognition {
  import opened Values

  const UnknownTitle: string := "Unknown Title"
  const UnknownArtist: string := "Unknown Artist"

  /** The `new_song` record `{title, artist, artwork_url}`. Each field holds
      whatever value the response carried under the key it is read from. */
  datatype Song = Song(title: Value, artist: Value, artworkUrl: Value)

  /** The track dictionary of a response that has one. */
  function TrackOf(out: Value): map<string, Value>
    requires out.Dict? && "track" in out.entries && out.entries["track"].Dict?
  {
    out.entries["track"].entries
  }

  /** The responses for which a song, rather than `None`, is queued: a dict
      with a truthy dict under `track` whose `images`, when present, is a dict
      (any other shape makes one of the `.get` calls raise, and the handler
      queues `None`). */
  predicate HasTrack(out: Value) {
    && out.Dict?
    && "track" in out.entries
    && out.entries["track"].Dict?
    && out.entries["track"].entries != map[]
    && ("images" in TrackOf(out) ==> TrackOf(out)["images"].Dict?)
  }

  /** The value queued for one recognition response `out`. */
  function Normalise(out: Value): (r: Option<Song>)
    ensures r.Some? <==> HasTrack(out)
    ensures !Truthy(out) ==> r == None
    ensures r.Some? ==> r.value.title == Get(TrackOf(out), "title", Str(UnknownTitle))
    ensures r.Some? ==> r.value.artist == Get(TrackOf(out), "subtitle", Str(UnknownArtist))
    ensures r.Some? && "images" !in TrackOf(out) ==> r.value.artworkUrl == Null
    ensures r.Some? && "images" in TrackOf(out) ==>
      r.value.artworkUrl == Get(TrackOf(out)["images"].entries, "coverart", Null)
  {
    if !Truthy(out) then None
    // `out.get` on anything but a dict raises; the handler queues None
    else if !out.Dict? then None
    else if !Truthy(Get(out.entries, "track", Null)) then None
    else match out.entries["track"]
      case Dict(track) =>
        var images := Get(track, "images", Dict(map[]));
        if !images.Dict? then None
        else Some(Song(Get(track, "title", Str(UnknownTitle)),
                       Get(track, "subtitle", Str(UnknownArtist)),
                       Get(images.entries, "coverart", Null)))
      case _ => None
  }

  /** A response shaped the way the recognition service reports `s`. */
  function ResponseOf(s: Song): Value {
    Dict(map["track" := Dict(map["title" := s.title,
                                 "subtitle" := s.artist,
                                 "images" := Dict(map["coverart" := s.artworkUrl])])])
  }

  /** Every song survives a trip through its own response unchanged. */
  lemma ResponseRoundTrip(s: Song)
    ensures Normalise(ResponseOf(s)) == Some(s)
  {
    var t := map["title" := s.title, "subtitle" := s.artist,
                 "images" := Dict(map["coverart" := s.artworkUrl])];
    assert t != map[] by { assert "title" in t; }
    assert TrackOf(ResponseOf(s)) == t;
  }

  /** No response, an empty one, or one without a truthy `track` gives `None`. */
  lemma MissingTrackIsNone(m: map<string, Value>)
    requires "track" !in m || !Truthy(m["track"])
    ensures Normalise(Null) == None
    ensures Normalise(Dict(map[])) == None
    ensures Normalise(Dict(m)) == None
  {
  }

  /** A track carrying none of the keys read gets every default. */
  lemma TrackDefaults(t: map<string, Value>)
    requires t != map[]
    requires "title" !in t && "subtitle" !in t && "images" !in t
    ensures Normalise(Dict(map["track" := Dict(t)])) ==
            Some(Song(Str(UnknownTitle), Str(UnknownArtist), Null))
  {
    assert TrackOf(Dict(map["track" := Dict(t)])) == t;
  }
}
