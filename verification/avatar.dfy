/** Generated avatars. The picture itself is left to the avatar library; what the model keeps
    is the pair of arguments it is generated from. */
module Avatar {
  datatype Variant = BotttsNeutral | Initials

  /** An image: a stored URL, or the avatar generated from `seed` in style `variant`. */
  datatype Image = StoredImage(url: string) | Generated(seed: string, variant: Variant)
}
