/** The `BlogPost` entity. */
module BlogPostModel {
  import opened Wrappers
  import opened Guids
  import opened Calendar

  datatype BlogPost = BlogPost(
    id: Guid,
    title: Option<string>,
    authorName: Option<string>,
    authorEmail: Option<string>,
    websiteLink: Option<string>,
    pdfFilePath: Option<string>,        // path of the uploaded PDF under the web root
    profilePhotoPath: Option<string>,   // uploaded author photo, or an avatar URL
    createdAt: DateTime)
}
