/**
 * The emoji the memory and emoji-sequence tables use, spelled by code point. Some
 * are more than one code point: a variation selector (U+FE0F) or a zero-width
 * joiner sequence.
 */
module Emoji {
  const PalmTree: string := "\U{1F334}"
  const Island: string := "\U{1F3DD}\U{FE0F}"
  const Anchor: string := "\U{2693}"
  const Parrot: string := "\U{1F99C}"
  const Gem: string := "\U{1F48E}"
  const Coin: string := "\U{1FA99}"
  const WorldMap: string := "\U{1F5FA}\U{FE0F}"
  const Compass: string := "\U{1F9ED}"
  const Ship: string := "\U{1F6A2}"
  const Squid: string := "\U{1F991}"
  const Shark: string := "\U{1F988}"
  const Crab: string := "\U{1F980}"
  const Mermaid: string := "\U{1F9DC}\U{200D}\U{2640}\U{FE0F}"
  const Trophy: string := "\U{1F3C6}"
}
