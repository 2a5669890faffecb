/**
  The store list (src/pages/Loja/List.tsx): the status badge's text and
  colour, and the links a store card opens (map, phone, e-mail, website).
 */
module StoreList {
  import opened Text
  import opened Types
  import StoreForm

  /** The badge text: 1 is ATIVO, 0 is INATIVO, every other code PENDENTE. */
  function LojaStatusText(status: int): (r: string)
    ensures r == "ATIVO" <==> status == 1
    ensures r == "INATIVO" <==> status == 0
    ensures r == "PENDENTE" <==> status != 0 && status != 1
  {
    if status == 1 then "ATIVO" else if status == 0 then "INATIVO" else "PENDENTE"
  }

  /** `getStatusColor`: 1 success, 2 warning, 0 and every other code gray. */
  function LojaStatusColor(status: int): (r: Color)
    ensures r == Success <==> status == 1
    ensures r == Warning <==> status == 2
    ensures r == Gray <==> status != 1 && status != 2
  {
    if status == 1 then Success else if status == 0 then Gray else if status == 2 then Warning else Gray
  }

  /**
    The two tables cut the codes differently: every code but 0 and 1 reads
    PENDENTE, yet only 2 is drawn in the warning colour.
   */
  lemma PendingColours(status: int)
    requires status != 0 && status != 1
    ensures LojaStatusText(status) == "PENDENTE"
    ensures LojaStatusColor(status) == Warning <==> status == 2
  {
  }

  /** On the two codes the edit form can produce, the list badge and the form badge agree; elsewhere they differ. */
  lemma ListAndFormBadgesAgree(status: int)
    ensures (status == 0 || status == 1) ==>
      LojaStatusText(status) == StoreForm.FormStatusText(status)
      && LojaStatusColor(status) == StoreForm.FormStatusColor(status)
    ensures status != 0 && status != 1 ==> LojaStatusText(status) != StoreForm.FormStatusText(status)
  {
  }

  /** What tapping a card's link does: nothing for an empty value, or open a URL. */
  datatype LinkAction = NoAction | Open(url: string)

  /** `openLocation`: the stored map link as it is. */
  function OpenLocation(link: string): (r: LinkAction)
    ensures r.NoAction? <==> link == ""
    ensures r.Open? ==> r.url == link
  {
    if link == "" then NoAction else Open(link)
  }

  /** `callPhone`: "tel:" followed by the stored phone. */
  function CallPhone(phone: string): (r: LinkAction)
    ensures r.NoAction? <==> phone == ""
    ensures r.Open? ==> StartsWith(r.url, "tel:") && r.url[4..] == phone
  {
    if phone == "" then NoAction else Open("tel:" + phone)
  }

  /** `sendEmail`: "mailto:" followed by the stored address. */
  function SendEmail(email: string): (r: LinkAction)
    ensures r.NoAction? <==> email == ""
    ensures r.Open? ==> StartsWith(r.url, "mailto:") && r.url[7..] == email
  {
    if email == "" then NoAction else Open("mailto:" + email)
  }

  /**
    `openWebsite`'s URL: a site starting with "http" is used as it is,
    anything else gets "https://" in front. The result always starts with
    "http" and ends with the site.
   */
  function WebsiteUrl(site: string): (r: string)
    ensures StartsWith(r, "http")
    ensures |r| >= |site| && r[|r| - |site|..] == site
    ensures StartsWith(site, "http") <==> r == site
  {
    if StartsWith(site, "http") then site
    else
      var r := "https://" + site;
      assert r[..4] == "http";
      r
  }

  /** Normalising a normalised URL changes nothing. */
  lemma WebsiteUrlIdempotent(site: string)
    ensures WebsiteUrl(WebsiteUrl(site)) == WebsiteUrl(site)
  {
  }

  /** `openWebsite`: nothing for an empty site. */
  function OpenWebsite(site: string): (r: LinkAction)
    ensures r.NoAction? <==> site == ""
    ensures r.Open? ==> r.url == WebsiteUrl(site)
  {
    if site == "" then NoAction else Open(WebsiteUrl(site))
  }
}
