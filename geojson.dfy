/**
 * `convert_posts_to_geojson`: one GeoJSON Point Feature per location entry
 * of a post that has a non-empty latitude and longitude, gathered in a
 * FeatureCollection (sections 3.1.2, 3.2 and 3.3 of RFC 7946). Each
 * position is `[longitude, latitude, 1]`: longitude first, then latitude,
 * then an altitude element, as section 3.1.1 of RFC 7946 orders them.
 */
module GeoJson {
  import opened Wrappers
  import opened PhpStr

  /** One entry of a post's `location_grid_meta` (`labelText` is its `label`); absent members are None. */
  datatype LocationMeta = LocationMeta(lat: Option<string>, lng: Option<string>,
                                       address: Option<string>, labelText: Option<string>)

  /** A post: its ID, its name if set, and its `location_grid_meta` when that is a set array. */
  datatype Post = Post(id: string, name: Option<string>, locations: Option<seq<LocationMeta>>)

  /** A position: longitude, latitude, altitude. */
  datatype Position = Position(lng: string, lat: string, altitude: int)

  /** `{type: Feature, properties: {address, post_id, name, post_type}, geometry: {type: Point, coordinates}}`. */
  datatype Feature = Feature(address: string, postId: string, name: string, postType: string, coordinates: Position)

  /** `{type: FeatureCollection, features}`. */
  datatype FeatureCollection = FeatureCollection(features: seq<Feature>)

  /** `!empty( $v )` for a member that may be missing. */
  predicate Present(v: Option<string>)
  {
    v.Some? && !IsEmptyStr(v.value)
  }

  predicate Located(l: LocationMeta)
  {
    Present(l.lng) && Present(l.lat)
  }

  function ToFeature(p: Post, l: LocationMeta, postType: string): Feature
    requires Located(l)
  {
    Feature(l.address.GetOr(""), p.id, p.name.GetOr(l.labelText.GetOr("")), postType,
            Position(l.lng.value, l.lat.value, 1))
  }

  /** The features of the given location entries of a post, in order. */
  function LocationFeatures(p: Post, ls: seq<LocationMeta>, postType: string): seq<Feature>
    decreases |ls|
  {
    if |ls| == 0 then []
    else
      var l := ls[|ls| - 1];
      LocationFeatures(p, ls[..|ls| - 1], postType) + (if Located(l) then [ToFeature(p, l, postType)] else [])
  }

  function PostFeatures(p: Post, postType: string): seq<Feature>
  {
    if p.locations.Some? && |p.locations.value| > 0 then LocationFeatures(p, p.locations.value, postType) else []
  }

  function Features(posts: seq<Post>, postType: string): seq<Feature>
    decreases |posts|
  {
    if |posts| == 0 then []
    else Features(posts[..|posts| - 1], postType) + PostFeatures(posts[|posts| - 1], postType)
  }

  method ConvertPostsToGeoJson(posts: seq<Post>, postType: string) returns (fc: FeatureCollection)
    ensures fc == FeatureCollection(Features(posts, postType))
  {
    var features: seq<Feature> := [];
    for i := 0 to |posts|
      invariant features == Features(posts[..i], postType)
    {
      FeaturesStep(posts, i, postType);
      features := AddPostFeatures(features, posts[i], postType);
    }
    assert posts[..|posts|] == posts;
    fc := FeatureCollection(features);
  }

  /** The inner loop of convert_posts_to_geojson: append one post's features. */
  method AddPostFeatures(features: seq<Feature>, post: Post, postType: string) returns (r: seq<Feature>)
    ensures r == features + PostFeatures(post, postType)
  {
    r := features;
    if post.locations.Some? && |post.locations.value| > 0 {
      var ls := post.locations.value;
      for j := 0 to |ls|
        invariant r == features + LocationFeatures(post, ls[..j], postType)
      {
        LocationFeaturesStep(post, ls, j, postType);
        var location := ls[j];
        if location.lng.Some? && !IsEmptyStr(location.lng.value)
           && location.lat.Some? && !IsEmptyStr(location.lat.value) {
          var name := if post.name.Some? then post.name.value
                      else if location.labelText.Some? then location.labelText.value else "";
          var address := if location.address.Some? then location.address.value else "";
          var feature := Feature(address, post.id, name, postType,
                                 Position(location.lng.value, location.lat.value, 1));
          ghost var done := LocationFeatures(post, ls[..j], postType);
          assert done + [feature] == LocationFeatures(post, ls[..j + 1], postType);
          assert (features + done) + [feature] == features + (done + [feature]);
          r := r + [feature];
        }
      }
      assert ls[..|ls|] == ls;
    }
  }

  lemma FeaturesStep(posts: seq<Post>, i: nat, postType: string)
    requires i < |posts|
    ensures Features(posts[..i + 1], postType) == Features(posts[..i], postType) + PostFeatures(posts[i], postType)
  {
    assert posts[..i + 1][..i] == posts[..i];
  }

  lemma LocationFeaturesStep(p: Post, ls: seq<LocationMeta>, j: nat, postType: string)
    requires j < |ls|
    ensures LocationFeatures(p, ls[..j + 1], postType)
            == LocationFeatures(p, ls[..j], postType) + (if Located(ls[j]) then [ToFeature(p, ls[j], postType)] else [])
  {
    assert ls[..j + 1][..j] == ls[..j];
  }

  /**
   * Every feature of a post comes from one of its located entries: the
   * position is that entry's longitude, latitude and altitude 1, and the
   * name is the post's name, else the entry's label, else "".
   */
  lemma {:induction false} LocationFeaturesSound(p: Post, ls: seq<LocationMeta>, postType: string)
    ensures forall f :: f in LocationFeatures(p, ls, postType) ==>
              exists l :: l in ls && Located(l) && f == ToFeature(p, l, postType)
    decreases |ls|
  {
    if |ls| > 0 {
      var init := ls[..|ls| - 1];
      LocationFeaturesSound(p, init, postType);
      assert forall l :: l in init ==> l in ls;
    }
  }

  /** Every located entry gives a feature. */
  lemma {:induction false} LocationFeaturesComplete(p: Post, ls: seq<LocationMeta>, postType: string)
    ensures forall l :: l in ls && Located(l) ==> ToFeature(p, l, postType) in LocationFeatures(p, ls, postType)
    decreases |ls|
  {
    if |ls| > 0 {
      var init := ls[..|ls| - 1];
      LocationFeaturesComplete(p, init, postType);
      assert forall l :: l in ls ==> l in init || l == ls[|ls| - 1];
    }
  }

  /** The number of located entries. */
  function CountLocated(ls: seq<LocationMeta>): nat
    decreases |ls|
  {
    if |ls| == 0 then 0 else CountLocated(ls[..|ls| - 1]) + (if Located(ls[|ls| - 1]) then 1 else 0)
  }

  /** One feature per located entry, and no other. */
  lemma {:induction false} LocationFeaturesCount(p: Post, ls: seq<LocationMeta>, postType: string)
    ensures |LocationFeatures(p, ls, postType)| == CountLocated(ls)
    decreases |ls|
  {
    if |ls| > 0 {
      LocationFeaturesCount(p, ls[..|ls| - 1], postType);
    }
  }

  /** Every feature has a non-empty longitude and latitude, and altitude 1. */
  lemma {:induction false} FeaturesPositioned(posts: seq<Post>, postType: string)
    ensures forall f :: f in Features(posts, postType) ==>
              !IsEmptyStr(f.coordinates.lng) && !IsEmptyStr(f.coordinates.lat) && f.coordinates.altitude == 1
              && f.postType == postType
              && exists p :: p in posts && f.postId == p.id
    decreases |posts|
  {
    if |posts| > 0 {
      var init := posts[..|posts| - 1];
      var p := posts[|posts| - 1];
      FeaturesPositioned(init, postType);
      assert forall q :: q in init ==> q in posts;
      if p.locations.Some? && |p.locations.value| > 0 {
        LocationFeaturesSound(p, p.locations.value, postType);
      }
    }
  }

  /** A post without a set, non-empty `location_grid_meta` contributes nothing. */
  lemma {:induction false} NoLocationsNoFeatures(posts: seq<Post>, postType: string)
    requires forall k :: 0 <= k < |posts| ==> posts[k].locations.None? || |posts[k].locations.value| == 0
    ensures Features(posts, postType) == []
  {
    if |posts| > 0 {
      var init := posts[..|posts| - 1];
      assert forall k :: 0 <= k < |init| ==> init[k] == posts[k];
      NoLocationsNoFeatures(init, postType);
    }
  }
}
