/**
 * The resource manifest: the build-time map from resource key to content
 * checksum, in the order the generator wrote it, and the application-shell
 * list that installation downloads.
 */
module Resources {
  import opened Wrappers
  import opened Keys

  /** A content checksum (an MD5 hex digest in the generated file); never empty. */
  type Checksum = s: string | s != "" witness "0"

  /**
   * The `RESOURCES` object: its keys in insertion order (the order
   * `Object.keys` lists them) and the checksum of each key.
   */
  datatype Manifest = Manifest(order: seq<string>, sums: map<string, Checksum>) {
    /** The keys are listed once each, are exactly the keys with a checksum, and are manifest keys. */
    predicate Valid() {
      && Distinct(order)
      && (forall k :: k in sums ==> k in order)
      && (forall k :: k in order ==> k in sums)
      && (forall k :: k in sums ==> ValidKey(k))
    }
  }

  /** The application shell, downloaded into the temporary cache on install. */
  const CORE: seq<string> := [
    "main.dart.js",
    "index.html",
    "flutter_bootstrap.js",
    "assets/AssetManifest.bin.json",
    "assets/FontManifest.json"]

  /** The keys of the generated `RESOURCES` object, in their order (checksums left out). */
  const RESOURCE_KEYS: seq<string> :=
    ["flutter.js",
      "icons/Icon-512.png",
      "icons/Icon-maskable-512.png",
      "icons/Icon-192.png",
      "icons/Icon-maskable-192.png",
      "manifest.json",
      "index.html",
      "/"]
    + ["assets/shaders/stretch_effect.frag",
      "assets/shaders/ink_sparkle.frag",
      "assets/AssetManifest.bin.json",
      "assets/assets/icons/home.svg",
      "assets/assets/icons/news_highlighted.svg",
      "assets/assets/icons/chat.svg",
      "assets/assets/icons/account_highlighted.svg",
      "assets/assets/icons/news.svg"]
    + ["assets/assets/icons/account.svg",
      "assets/assets/icons/arrow_back.svg",
      "assets/assets/icons/verified.svg",
      "assets/assets/icons/search.svg",
      "assets/assets/icons/search_highlighted.svg",
      "assets/assets/icons/community_highlighted.svg",
      "assets/assets/icons/trash.svg",
      "assets/assets/icons/favorite.svg"]
    + ["assets/assets/icons/morePoints.svg",
      "assets/assets/icons/community.svg",
      "assets/assets/icons/morePoints_highlighted.svg",
      "assets/assets/icons/favorite_active.svg",
      "assets/assets/icons/home_highlighted.svg",
      "assets/assets/app_logo/inner_circle_logo_highlighted.svg",
      "assets/assets/app_logo/inner_circle_logo.svg",
      "assets/assets/app_logo/app_icon.png"]
    + ["assets/fonts/MaterialIcons-Regular.otf",
      "assets/NOTICES",
      "assets/packages/flutter_image_compress_web/assets/pica.min.js",
      "assets/packages/cupertino_icons/assets/CupertinoIcons.ttf",
      "assets/FontManifest.json",
      "assets/AssetManifest.bin",
      "canvaskit/chromium/canvaskit.wasm",
      "canvaskit/chromium/canvaskit.js"]
    + ["canvaskit/chromium/canvaskit.js.symbols",
      "canvaskit/skwasm_heavy.wasm",
      "canvaskit/skwasm_heavy.js.symbols",
      "canvaskit/skwasm.js",
      "canvaskit/canvaskit.wasm",
      "canvaskit/skwasm_heavy.js",
      "canvaskit/canvaskit.js",
      "canvaskit/skwasm.wasm"]
    + ["canvaskit/canvaskit.js.symbols",
      "canvaskit/skwasm.js.symbols",
      "favicon.png",
      "apple-touch-icon.png",
      "404.html",
      "flutter_bootstrap.js",
      "version.json",
      "main.dart.js"]

  // The shell files are written as manifest keys, one key at a time: the
  // character-by-character check is too costly for the solver all at once.
  lemma MainIsValidKey()
    ensures ValidKey("main.dart.js")
  {
  }
  lemma IndexIsValidKey()
    ensures ValidKey("index.html")
  {
  }
  lemma BootstrapIsValidKey()
    ensures ValidKey("flutter_bootstrap.js")
  {
  }
  lemma AssetManifestIsValidKey()
    ensures ValidKey("assets/AssetManifest.bin.json")
  {
  }
  lemma FontManifestIsValidKey()
    ensures ValidKey("assets/FontManifest.json")
  {
  }

  /** Every shell file is written as a manifest key: a plain path relative to the site root. */
  lemma CoreKeysAreValid()
    ensures forall k :: k in CORE ==> ValidKey(k)
  {
    MainIsValidKey();
    IndexIsValidKey();
    BootstrapIsValidKey();
    AssetManifestIsValidKey();
    FontManifestIsValidKey();
  }

  /** Every shell file is a manifest resource, and the site root is one too. */
  lemma CoreKeysAreResources()
    ensures forall k :: k in CORE ==> k in RESOURCE_KEYS
    ensures ROOT in RESOURCE_KEYS
  {
    assert CORE[0] == RESOURCE_KEYS[55];
    assert CORE[1] == RESOURCE_KEYS[6];
    assert CORE[2] == RESOURCE_KEYS[53];
    assert CORE[3] == RESOURCE_KEYS[10];
    assert CORE[4] == RESOURCE_KEYS[36];
    assert ROOT == RESOURCE_KEYS[7];
  }
}
