/**
 * Asset URL helpers of the shared utilities. The build environment (`NODE_ENV`) is the
 * parameter `isDevelopment`: development serves assets from the site root, a production
 * build for GitHub Pages serves them under the repository's base path.
 */
module AssetPaths {

  const RepositoryBase := "/vecto-tv-test-task"
  const AssetsDir := "/assets/"
  /** The placeholder image, `/assets/videos/placeholder.svg`. */
  const PlaceholderName := "videos/placeholder.svg"
  const PlaceholderImage := AssetsDir + PlaceholderName
  const IconsDir := "/assets/icons/"

  /** URL of the asset at `path` (a root-relative path) in the given build. */
  function GetAssetPath(path: string, isDevelopment: bool): (r: string)
    ensures isDevelopment ==> r == path
    ensures !isDevelopment ==> |r| == |RepositoryBase| + |path| && r[..|RepositoryBase|] == RepositoryBase
    ensures |r| >= |path| && r[|r| - |path|..] == path
  {
    if isDevelopment then path else RepositoryBase + path
  }

  /** URL of an image under `/assets/`; the empty name stands for the placeholder image. */
  function GetImagePath(filename: string, isDevelopment: bool): (r: string)
    ensures filename == "" ==> r == GetAssetPath(PlaceholderImage, isDevelopment)
    ensures filename != "" ==> |r| >= |AssetsDir + filename| && r[|r| - |AssetsDir + filename|..] == AssetsDir + filename
    ensures isDevelopment ==> |r| > |AssetsDir| && r[..|AssetsDir|] == AssetsDir
    ensures !isDevelopment ==> |r| > |RepositoryBase| && r[..|RepositoryBase|] == RepositoryBase
  {
    var path := if filename == "" then PlaceholderImage else AssetsDir + filename;
    assert path[..|AssetsDir|] == AssetsDir;
    GetAssetPath(path, isDevelopment)
  }

  /** URL of an icon under `/assets/icons/`. */
  function GetIconPath(filename: string, isDevelopment: bool): (r: string)
    ensures |r| >= |IconsDir + filename| && r[|r| - |IconsDir + filename|..] == IconsDir + filename
    ensures isDevelopment ==> r == IconsDir + filename
    ensures !isDevelopment ==> r == RepositoryBase + IconsDir + filename
  {
    GetAssetPath(IconsDir + filename, isDevelopment)
  }

  /** Different paths get different URLs in either build. */
  lemma AssetPathInjective(p: string, q: string, isDevelopment: bool)
    requires GetAssetPath(p, isDevelopment) == GetAssetPath(q, isDevelopment)
    ensures p == q
  {
    if !isDevelopment {
      var r := GetAssetPath(p, isDevelopment);
      assert p == r[|RepositoryBase|..];
      assert q == r[|RepositoryBase|..];
    }
  }

  /** In a production build, resolving an already resolved URL prefixes the base a second time. */
  lemma AssetPathNotIdempotent(p: string)
    ensures GetAssetPath(GetAssetPath(p, false), false) != GetAssetPath(p, false)
    ensures GetAssetPath(GetAssetPath(p, false), false) == RepositoryBase + RepositoryBase + p
  {
  }

  /** The path under `/assets/` determines the file name. */
  lemma AssetsDirInjective(f: string, g: string)
    requires AssetsDir + f == AssetsDir + g
    ensures f == g
  {
    assert f == (AssetsDir + f)[|AssetsDir|..];
    assert g == (AssetsDir + g)[|AssetsDir|..];
  }

  /** A non-empty image name maps to the placeholder's path only when it names that file. */
  lemma PlaceholderCollision(g: string)
    requires g != ""
    ensures AssetsDir + g == PlaceholderImage <==> g == PlaceholderName
  {
    if AssetsDir + g == PlaceholderImage {
      AssetsDirInjective(g, PlaceholderName);
    }
  }

  /**
   * Two image names give the same URL exactly when they are equal, or when one is empty
   * and the other names the placeholder file itself.
   */
  lemma ImagePathCollisions(f: string, g: string, isDevelopment: bool)
    ensures GetImagePath(f, isDevelopment) == GetImagePath(g, isDevelopment)
        <==> f == g || (f == "" && g == PlaceholderName) || (f == PlaceholderName && g == "")
  {
    var pf := if f == "" then PlaceholderImage else AssetsDir + f;
    var pg := if g == "" then PlaceholderImage else AssetsDir + g;
    assert GetImagePath(f, isDevelopment) == GetAssetPath(pf, isDevelopment);
    assert GetImagePath(g, isDevelopment) == GetAssetPath(pg, isDevelopment);
    if GetAssetPath(pf, isDevelopment) == GetAssetPath(pg, isDevelopment) {
      AssetPathInjective(pf, pg, isDevelopment);
    }
    if f != "" && g != "" && pf == pg {
      AssetsDirInjective(f, g);
    }
    if f == "" && g != "" {
      PlaceholderCollision(g);
    }
    if f != "" && g == "" {
      PlaceholderCollision(f);
    }
  }

  /** An icon URL is the image URL of the same file under `icons/`. */
  lemma IconPathIsImagePath(f: string, isDevelopment: bool)
    ensures GetIconPath(f, isDevelopment) == GetImagePath("icons/" + f, isDevelopment)
  {
    assert IconsDir + f == AssetsDir + ("icons/" + f);
  }
}
