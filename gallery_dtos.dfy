/** The transfer objects the gallery services return, and the `convertToDTO`
    mappings from entities to them (written identically in the collection,
    image and dialogue services). Timestamps are not modelled. */
module GalleryDtos {
  import opened Wrappers
  import opened Entities

  datatype DialogueDto = DialogueDto(
    id: int,
    imageId: int,
    text: string,
    speaker: Option<string>,
    orderIndex: int,
    emotionType: Option<string>)

  datatype ImageDto = ImageDto(
    id: int,
    collectionId: int,
    imageUrl: string,
    title: string,
    description: string,
    orderIndex: int,
    dialogues: seq<DialogueDto>)

  datatype CollectionDto = CollectionDto(
    id: int,
    cardId: int,
    name: string,
    description: string,
    images: seq<ImageDto>)

  function DialogueToDto(d: Dialogue): DialogueDto
  {
    DialogueDto(d.id, d.imageId, d.text, d.speaker, d.orderIndex, Some(EmotionName(d.emotionType)))
  }

  function DialoguesToDtos(ds: seq<Dialogue>): (r: seq<DialogueDto>)
    ensures |r| == |ds|
    ensures forall i :: 0 <= i < |ds| ==> r[i] == DialogueToDto(ds[i])
  {
    seq(|ds|, i requires 0 <= i < |ds| => DialogueToDto(ds[i]))
  }

  function ImageToDto(img: CollectionImage): ImageDto
  {
    ImageDto(img.id, img.collectionId, img.imageUrl, img.title, img.description,
             img.orderIndex, DialoguesToDtos(img.dialogues))
  }

  function ImagesToDtos(imgs: seq<CollectionImage>): (r: seq<ImageDto>)
    ensures |r| == |imgs|
    ensures forall i :: 0 <= i < |imgs| ==> r[i] == ImageToDto(imgs[i])
  {
    seq(|imgs|, i requires 0 <= i < |imgs| => ImageToDto(imgs[i]))
  }

  function CollectionToDto(c: CardCollection): CollectionDto
  {
    CollectionDto(c.id, c.cardId, c.name, c.description, ImagesToDtos(c.images))
  }

  /** Emotion names are distinct, so the name identifies the constant. */
  lemma EmotionNameInjective(a: EmotionType, b: EmotionType)
    requires EmotionName(a) == EmotionName(b)
    ensures a == b
  {
    assert EmotionValueOf(EmotionName(a)) == Some(a);
  }

  /** A dialogue's DTO keeps every field: two dialogues with the same DTO are
      the same dialogue. */
  lemma DialogueDtoInjective(a: Dialogue, b: Dialogue)
    requires DialogueToDto(a) == DialogueToDto(b)
    ensures a == b
  {
    EmotionNameInjective(a.emotionType, b.emotionType);
  }

  lemma DialoguesDtosInjective(xs: seq<Dialogue>, ys: seq<Dialogue>)
    requires DialoguesToDtos(xs) == DialoguesToDtos(ys)
    ensures xs == ys
  {
    forall i | 0 <= i < |xs| ensures xs[i] == ys[i] {
      DialogueDtoInjective(xs[i], ys[i]);
    }
  }

  /** An image's DTO keeps every field and every dialogue, in order. */
  lemma ImageDtoInjective(a: CollectionImage, b: CollectionImage)
    requires ImageToDto(a) == ImageToDto(b)
    ensures a == b
  {
    DialoguesDtosInjective(a.dialogues, b.dialogues);
  }

  /** A collection's DTO keeps id, card, name, description and the images in
      order; the only field it drops is the collection's own `orderIndex`. */
  lemma CollectionDtoInjective(a: CardCollection, b: CardCollection)
    requires CollectionToDto(a) == CollectionToDto(b)
    ensures a.(orderIndex := 0) == b.(orderIndex := 0)
  {
    forall i | 0 <= i < |a.images| ensures a.images[i] == b.images[i] {
      ImageDtoInjective(a.images[i], b.images[i]);
    }
  }
}
