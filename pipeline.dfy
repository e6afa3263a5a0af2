/** How the queue and the processor fit together: the output path a
    thumbnail job generates for itself is one the processor accepts as is. */
module Pipeline {
  import opened Wrappers
  import opened Text
  import opened Paths
  import opened Jobs
  import opened VideoProcessor

  /** The queue's thumbnail extension table and the processor's agree. */
  lemma ExtensionTablesAgree(imageFormat: string)
    ensures "." + ThumbnailFormatExt(imageFormat) == ThumbnailExtension(imageFormat)
  {
  }

  /** The suffix of a generated thumbnail path is the extension the job's
      `image_format` selects. */
  lemma ThumbnailPathSuffix(inputFile: string, parameters: map<string, string>, stamp: string)
    requires NoChar(stamp, '/')
    ensures Suffix(GenerateOutputPath(inputFile, "generate_thumbnail", parameters, stamp))
              == "." + ThumbnailFormatExt(Get(parameters, "image_format").GetOr("webp"))
  {
    GeneratedPathShape(inputFile, "generate_thumbnail", parameters, stamp);
  }

  /** A thumbnail job whose output path was generated by the queue reaches
      the processor with the right extension already in place, so the
      processor writes to exactly the path the job records (the job's
      `image_format` parameter goes to both sides, `webp` when absent). */
  lemma GeneratedThumbnailPathKept(inputFile: string, parameters: map<string, string>, stamp: string)
    requires NoChar(stamp, '/')
    ensures var out := GenerateOutputPath(inputFile, "generate_thumbnail", parameters, stamp);
            CorrectThumbnailExtension(out, Get(parameters, "image_format").GetOr("webp")) == Some(out)
  {
    var fmt := Get(parameters, "image_format").GetOr("webp");
    var out := GenerateOutputPath(inputFile, "generate_thumbnail", parameters, stamp);
    ThumbnailPathSuffix(inputFile, parameters, stamp);
    ExtensionTablesAgree(fmt);
    assert Lower(Suffix(out)) == ThumbnailExtension(fmt);
  }
}
