/** Configuration constants the modelled code reads. */
module Config {
  /** File extensions the server accepts for upload, lower case, without the dot. */
  const AllowedExtensions: set<string> := {"csv", "xlsx"}
}
