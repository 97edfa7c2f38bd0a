/** Which navigation links the header highlights for the current location. */
module Header {
  import JsString

  /** The paths of the navigation links. */
  const NavPaths: seq<string> := ["/", "/explore", "/my-collection", "/wishlist"]

  /** `isActive(path)` at `location`. */
  predicate IsActive(path: string, location: string) {
    || (path == "/" && location == "/")
    || (path == "/explore" && (location == "/" || location == "/explore"))
    || (path == "/my-collection" && JsString.StartsWith(location, "/my-collection"))
    || (path == "/wishlist" && JsString.StartsWith(location, "/wishlist"))
  }

  /** The paths among the four for which `isActive` holds at `location`, in
      menu order (the header styles only the last three; "/" is the logo). */
  function ActiveLinks(location: string): (r: seq<string>)
    ensures forall p :: p in r <==> p in NavPaths && IsActive(p, location)
    ensures |r| <= 2
    ensures |r| == 2 <==> location == "/"
  {
    var r := (if IsActive("/", location) then ["/"] else [])
      + (if IsActive("/explore", location) then ["/explore"] else [])
      + (if IsActive("/my-collection", location) then ["/my-collection"] else [])
      + (if IsActive("/wishlist", location) then ["/wishlist"] else []);
    PrefixesExclusive(location);
    r
  }

  /** No location starts with both collection and wishlist paths, and neither
      prefix allows "/" or "/explore". */
  lemma PrefixesExclusive(location: string)
    ensures !(JsString.StartsWith(location, "/my-collection") && JsString.StartsWith(location, "/wishlist"))
    ensures JsString.StartsWith(location, "/my-collection") || JsString.StartsWith(location, "/wishlist") ==>
              location != "/" && location != "/explore"
  {
    if JsString.StartsWith(location, "/my-collection") {
      assert location[1] == 'm';
    }
    if JsString.StartsWith(location, "/wishlist") {
      assert location[1] == 'w';
    }
  }

  /** A path other than the four links is never active. */
  lemma OtherPathsInactive(path: string, location: string)
    requires path !in NavPaths
    ensures !IsActive(path, location)
  {
  }

  /** The collection and wishlist links stay active below their paths (and
      for any longer location with that prefix, such as "/wishlists"). */
  lemma SubRoutesActive(location: string, suffix: string)
    ensures IsActive("/my-collection", location) ==> IsActive("/my-collection", location + suffix)
    ensures IsActive("/wishlist", location) ==> IsActive("/wishlist", location + suffix)
  {
    if IsActive("/my-collection", location) {
      assert (location + suffix)[..|"/my-collection"|] == location[..|"/my-collection"|];
    }
    if IsActive("/wishlist", location) {
      assert (location + suffix)[..|"/wishlist"|] == location[..|"/wishlist"|];
    }
  }
}
