/**
 * The entries of a repository listing, as GitHub's `ContentFile` reports them:
 * the entry type (`"file"`, `"dir"`, ...), the path within the repository, the file
 * name, the size in bytes and the page URL.
 */
module RepoContent {

  datatype ContentFile = ContentFile(fileType: string, path: string, name: string, size: int, htmlUrl: string)
}
