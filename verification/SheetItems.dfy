// What contact sheets are made of.
module SheetItems {
  // A string value of the output: ordinary text, or the data URL of a rendered
  // sheet, which stands for the images drawn on it.
  datatype PreviewText = Plain(chars: string) | SheetUrl(items: seq<SheetItem>)

  datatype SheetItem = SheetItem(caption: string, detail: string, url: PreviewText)
}
