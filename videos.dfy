/** The video record the pages receive from the API. */
module Videos {
  import opened Wrappers

  /** One video as the API returns it; `created_at` is kept as milliseconds since the epoch. */
  datatype Video = Video(
    id: string,
    title: string,
    description: Option<string>,
    videoUrl: Option<string>,
    thumbnailUrl: Option<string>,
    views: nat,
    likes: nat,
    processingStatus: string,
    createdAt: int)

  /** `video.video_url` is truthy: present and not the empty string. */
  predicate HasUrl(v: Video) {
    v.videoUrl.Some? && v.videoUrl.value != ""
  }

  /** The test the Shorts feed filters on. */
  predicate IsPlayable(v: Video) {
    v.processingStatus == "completed" && HasUrl(v)
  }
}
